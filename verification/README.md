# gpu-monitor, modelled in Dafny

gpu-monitor watches the GPUs of a group of machines. It has three parts:

- **Collector.** On each host, `backend/gpu_collector.py` gathers the data in rounds. Each round blocks for a second while psutil samples the CPU, then sleeps another second, so rounds are a little more than two seconds apart. A round gathers the GPU query, the process list, the outward IP address, the `screen` sessions and the `docker` containers. It joins the GPU query with the process list, so that every probed process running on a GPU is marked in place. A GPU process whose probe failed has no record and is left out of its GPU's list. It then posts the result to a central server.
- **Server.** `backend/web_server.py` keeps the latest report of every host in memory. It never forgets a host. When asked, it returns every known host with an `is_online` flag: true when the timestamp inside the host's last report, set by the collector's own clock, is at most 30 seconds before the server's clock.
- **Dashboard.** The React dashboard (`frontend/src`) polls the server. It shows each host either as a card in a list or, in window mode, through a host menu. Each GPU has a card whose process table is ranked (python processes first, then by GPU memory, then newest first) and filtered by a text defaulting to "python". Each host also has:
  - a process search over the whole host;
  - a screen-session table whose rows copy an attach command;
  - a table of the running containers;
  - a pastel header colour derived from the hostname.

The model has one Dafny module per source file, plus shared modules:

- `Wrappers` holds `Option` and `Result`.
- `Text` holds lower-casing, substring search, splitting and joining, Python's `strip()`, and decimal printing.
- `Seqs` holds order-preserving filtering.
- `Records` holds the records that travel from collector to dashboard.

State the source updates in place is modelled as classes:

- the server's store, `WebServer.GpuDataStore`;
- a GPU card's filter state, `GpuCard.ProcessTable`;
- the dashboard's React state, `App.AppState`;
- the collector's process records, which are shared between the process list and the GPU lists, modelled as an `array` that `GpuCollector.CollectGpuProcesses` updates in place.

Loops of the source are `method`s proved against specification functions:

- `GetAllProcesses`, `GetIpAddress`, `GetScreenSessions`, `GetDockerContainers` and the GPU join;
- `getColorIndex`;
- the server's status loop.

Everything else is functions and lemmas.

Calls to the operating system and to libraries become parameters:

| call | becomes |
|---|---|
| the GPU query | a `seq<GpuStat>` |
| psutil's per-pid probe | an `Option<ProcessProbe>`; `None` is a vanished or inaccessible process |
| the routed UDP socket | an `Option<string>` |
| the interface table | an `Option` of a list |
| the stdout of `screen -ls` and `docker ps` | an `Option<string>`; `None` is a command that raised |
| the clock | an integer |
| local storage | an `Option` of the parsed settings blob |

The server keeps hosts that stop reporting, and reports them offline. The dashboard does not merge snapshots. Each successful poll replaces its host list wholesale with the server's answer (`frontend/src/App.jsx:36`). A failed poll leaves the list alone and raises no notification. The model follows this code. `App.SnapshotForgetsMissingHosts` states the consequence on the client side, and `WebServer.SilentHostListedOffline` states the server side.

## Model

| member | source | states |
|---|---|---|
| WebServer.WithStatus | backend/web_server.py:50-53 | `{**data, 'is_online': b}` keeps every key of the payload, adds `is_online` set to `b`, and leaves every other value as it was |
| WebServer.Report | backend/web_server.py:25-37 | a payload without a hostname leaves the store unchanged and fails. Otherwise the reporter's entry becomes the payload, the key set grows by that hostname only, and every other host keeps its entry. The answer is `success` exactly when both hostname and timestamp are present. A payload without a timestamp is stored before the request fails |
| WebServer.StatusView | backend/web_server.py:40-57 | the query succeeds exactly when every stored timestamp is readable, and otherwise fails with an unreadable-timestamp error. It lists exactly the stored hosts, stale ones included, each as its payload with the online flag of its own timestamp |
| WebServer.StatusViewEntry | backend/web_server.py:46-53 | each listed host keeps every field of its payload and gains `is_online`, true exactly when `now - timestamp <= 30` |
| WebServer.ReportIdempotent | backend/web_server.py:34 | reporting the same payload twice gives the same store and answer as reporting it once |
| WebServer.ReplayNeverShrinks | backend/web_server.py:31-34 | no sequence of reports removes a host from the store |
| WebServer.ReplayKeepsSilentHost | backend/web_server.py:34 | a host that does not report keeps its last payload through any sequence of other hosts' reports |
| WebServer.SilentHostListedOffline | backend/web_server.py:46-53 | a host silent for more than 30 seconds is still listed, with its last payload and `is_online` false |
| WebServer.GpuDataStore.constructor | backend/web_server.py:20 | the store starts empty |
| WebServer.GpuDataStore.ReportGpuStats | backend/web_server.py:25-37 | the endpoint updates the store in place. The new store and the answer are those of `Report` on the old store |
| WebServer.GpuDataStore.GetGpuStats | backend/web_server.py:40-57 | the host-by-host loop returns exactly `StatusView` of the store |
| GpuCollector.CommandLine | backend/gpu_collector.py:17 | an empty argument vector gives the empty command line |
| GpuCollector.CommandLineRoundTrip | backend/gpu_collector.py:17 | `' '.join(argv)` splits back into `argv` when no argument holds a blank |
| GpuCollector.GetProcessInfo | backend/gpu_collector.py:10-25 | a record exists exactly when the probe succeeded. It carries the pid, the name, the joined command line, and the probe's CPU and memory percentages, creation time, status and user |
| GpuCollector.Probed | backend/gpu_collector.py:27-51 | never more records than pids enumerated |
| GpuCollector.ProbedConcat | backend/gpu_collector.py:30-51 | pids are probed one by one: the records of two blocks of pids are the first block's followed by the second's |
| GpuCollector.ProbedSingle | backend/gpu_collector.py:30-51 | one pid gives its own probed record when the probe succeeds, and nothing otherwise |
| GpuCollector.ProbedExact | backend/gpu_collector.py:30-51 | a pid has a record exactly when its probe succeeded |
| GpuCollector.Fresh | backend/gpu_collector.py:38-48 | a new record is not a GPU process: it has memory 0 and no GPU id |
| GpuCollector.Initial | backend/gpu_collector.py:27-51 | one fresh record per entry of `Probed`, position by position, so in enumeration order with each pid's own details |
| GpuCollector.GetAllProcesses | backend/gpu_collector.py:27-51 | the loop returns `Fresh` of each entry of `Probed`, position by position: one record per successfully probed pid, in enumeration order |
| GpuCollector.FirstInet | backend/gpu_collector.py:74-77 | an address is returned exactly when the interface has an IPv4 address not starting with `127.`. It is the first such address in the interface's list |
| GpuCollector.FallbackAddress | backend/gpu_collector.py:66-79 | an address is found exactly when some interface whose name does not start with `lo` has a usable IPv4 address. It is `FirstInet` of the first such interface, in enumeration order |
| GpuCollector.GetIpAddress | backend/gpu_collector.py:53-80 | the routed socket's address if there is one. Otherwise the scan returns `FallbackAddress`: the first usable address of the first interface not named `lo…` that has one. Otherwise `未知` |
| GpuCollector.ParseScreenLine | backend/gpu_collector.py:94-104 | a line yields a session exactly when it holds a dot and `Detached` or `Attached`, and its first tab field holds a dot. The status is `Attached` when the line mentions it, else `Detached`. The pid and the name are the stripped text before and after the first dot of the first tab field |
| GpuCollector.ScreenLineRoundTrip | backend/gpu_collector.py:94-104 | a line `\t<pid>.<name>\t(Detached)`, with pid and name free of dots, tabs, surrounding blanks and the word `Attached`, parses to the detached session with that pid and name |
| GpuCollector.ScreenFieldsDotFree | backend/gpu_collector.py:95-98 | a parsed session's pid and name contain no dot |
| GpuCollector.ScreenSessionsOf | backend/gpu_collector.py:91-104 | at most one session per line |
| GpuCollector.ScreenSessionsConcat | backend/gpu_collector.py:91-104 | lines are parsed independently: the sessions of two blocks of lines are concatenated |
| GpuCollector.ScreenSessionsSingle | backend/gpu_collector.py:94-104 | one line gives its own session when it parses, and nothing otherwise |
| GpuCollector.ScreenSessionsIncludeParsed | backend/gpu_collector.py:91-104 | a line that parses puts its session into the list, wherever the line stands |
| GpuCollector.DetachedSessionListed | backend/gpu_collector.py:82-104 | an output of one well-formed detached line lists exactly that session |
| GpuCollector.ScreenSessionsFromLines | backend/gpu_collector.py:91-104 | every listed session comes from one line and is Attached or Detached |
| GpuCollector.GetScreenSessions | backend/gpu_collector.py:82-108 | a `screen` that cannot be run gives no sessions. Otherwise the loop returns the sessions of the stdout's lines, in order |
| GpuCollector.ParseContainerLine | backend/gpu_collector.py:117-119 | a line yields a container exactly when its stripped text has four pipe-separated fields. The container's fields joined by pipes are the stripped line |
| GpuCollector.ContainerLineRoundTrip | backend/gpu_collector.py:113-125 | a container printed as its ID, name, status and image separated by pipes parses back to itself |
| GpuCollector.ContainersOf | backend/gpu_collector.py:115-126 | at most one container per line |
| GpuCollector.ContainersStep | backend/gpu_collector.py:116-119 | the list is lost exactly when it was already lost or the new line is malformed |
| GpuCollector.ContainersAllOrNothing | backend/gpu_collector.py:110-129 | the whole list is lost exactly when some line is neither blank nor four fields |
| GpuCollector.ContainersCount | backend/gpu_collector.py:116-125 | when no line is malformed, each non-blank line gives exactly its own container, in order |
| GpuCollector.NonBlank | backend/gpu_collector.py:117-118 | skipping blank lines never adds lines |
| GpuCollector.ContainersNonePropagates | backend/gpu_collector.py:116-129 | once a malformed line is read, later lines do not bring the list back |
| GpuCollector.GetDockerContainers | backend/gpu_collector.py:110-129 | the loop returns the parsed containers. It returns none when `docker` cannot be run or a line is malformed |
| GpuCollector.ProcessMap | backend/gpu_collector.py:157 | the map's pids are exactly the listed pids. Each maps to a record with that pid, and no later record has it: the last record wins |
| GpuCollector.Mark | backend/gpu_collector.py:166-168 | marking sets the GPU flag, the GPU memory and the GPU index, and keeps the probed fields |
| GpuCollector.Tagged | backend/gpu_collector.py:160-169 | each listed process of a GPU is paired with that GPU's index, in listing order |
| GpuCollector.Hits | backend/gpu_collector.py:160-162 | no GPUs give no listings. One GPU gives its processes tagged with its index |
| GpuCollector.HitsAppend | backend/gpu_collector.py:160-162 | the listings of two runs of GPUs are concatenated |
| GpuCollector.Merged | backend/gpu_collector.py:160-169 | applying the listings keeps the number of records |
| GpuCollector.LastHit | backend/gpu_collector.py:160-168 | there is no result exactly when no listing lands on the record. Otherwise the result is the GPU and memory of the last listing that lands |
| GpuCollector.MergedAt | backend/gpu_collector.py:160-169 | after the join, each record is unchanged when no listing lands on it. Otherwise it is marked with its last landing listing's GPU and memory |
| GpuCollector.LastHitAppend | backend/gpu_collector.py:160-168 | a later block of listings decides over an earlier one |
| GpuCollector.Members | backend/gpu_collector.py:161-169 | a GPU's list holds the record of every listed pid that has one, and nothing else |
| GpuCollector.MembersConcat | backend/gpu_collector.py:161-169 | the list of two blocks of listed processes is the first block's list followed by the second's: order and repeats are kept |
| GpuCollector.MembersSingle | backend/gpu_collector.py:161-169 | a single listed process contributes its record when its pid has one, and nothing otherwise |
| GpuCollector.EntryOf | backend/gpu_collector.py:171-179 | a GPU entry carries the GPU's index and the records of its listed processes |
| GpuCollector.CollectGpuProcesses | backend/gpu_collector.py:157-179 | the nested loops mark the process array in place into `Merged` of its old contents. Each GPU's entry refers to positions in that same array |
| GpuCollector.MarkGpuProcesses | backend/gpu_collector.py:161-169 | the inner loop applies one GPU's listings to the array and returns the positions of its known processes |
| GpuCollector.LastGpuWins | backend/gpu_collector.py:164-169 | a process listed on two GPUs appears in both GPU lists as the same record. That record shows the index and memory of the last GPU listing it |
| GpuCollector.LandsOwnPid | backend/gpu_collector.py:157-164 | only a listing with a record's own pid reaches that record |
| GpuCollector.LastHitOtherPids | backend/gpu_collector.py:162-168 | listings of other pids never reach a pid's record |
| GpuCollector.LastHitInGpu | backend/gpu_collector.py:162-168 | within one GPU, the last listing of the pid decides |
| GpuCollector.HitsWithout | backend/gpu_collector.py:160-169 | GPUs that do not list a pid contribute no listing of it |
| GpuCollector.LastHitOfPid | backend/gpu_collector.py:160-168 | the last listing reaching a pid's record is that pid's last listing across all GPUs |
| GpuCollector.HitsFrom | backend/gpu_collector.py:160-162 | every listing comes from one listed process of one GPU |
| GpuCollector.Resolve | backend/gpu_collector.py:169-179 | a GPU's process list consists of the very records at its positions, in order |
| GpuCollector.EntryInRange | backend/gpu_collector.py:169-179 | every position a GPU entry lists is a record of the process list |
| GpuCollector.ResolveEntries | backend/gpu_collector.py:169-179 | the loop builds one view per GPU entry, in order, each resolved against the process list |
| GpuCollector.CollectGpuInfo | backend/gpu_collector.py:150-190 | the report carries the hostname and timestamp, and the process list as marked by the join. Each GPU lists records of that same list. The IP address, sessions and containers are those of the probes |
| GpuCard.UtilizationColor | frontend/src/components/GPUCard.jsx:7-12 | a red, orange, yellow or green colour, exactly for readings of at least 80, in [50,80), in [20,50) and below 20 |
| GpuCard.TemperatureColor | frontend/src/components/GPUCard.jsx:14-18 | red, gold or green, exactly for at least 80, [60,80) and below 60 |
| GpuCard.ColorsMonotone | frontend/src/components/GPUCard.jsx:7-18 | a higher reading never gets a less alarming colour |
| GpuCard.PrecedesByKeys | frontend/src/components/GPUCard.jsx:59-71 | the comparator puts python first, then more GPU memory, then the later creation time |
| GpuCard.Compare | frontend/src/components/GPUCard.jsx:60-71 | a python process precedes a non-python one. The comparator is zero exactly when the python flag, the GPU memory and the creation time all agree |
| GpuCard.CompareAntisymmetric | frontend/src/components/GPUCard.jsx:60-71 | swapping the arguments negates the comparator |
| GpuCard.PrecedesTotalPreorder | frontend/src/components/GPUCard.jsx:60-71 | the comparator is total and transitive, so sorting with it is well defined |
| GpuCard.Insert | frontend/src/components/GPUCard.jsx:59-72 | inserting adds exactly the one element |
| GpuCard.InsertSorted | frontend/src/components/GPUCard.jsx:59-72 | inserting into a sorted list keeps it sorted |
| GpuCard.SortProcesses | frontend/src/components/GPUCard.jsx:59-72 | the ranking is a permutation of the processes |
| GpuCard.SortProcessesSorted | frontend/src/components/GPUCard.jsx:59-72 | the ranking is sorted under the comparator |
| GpuCard.RankingOrder | frontend/src/components/GPUCard.jsx:59-72 | every python process comes before every other. Within a group GPU memory does not increase. Within equal memory, newer processes come first |
| GpuCard.EmptyFilterKeepsAll | frontend/src/components/GPUCard.jsx:77-79 | an empty filter shows the whole ranking |
| GpuCard.FilterProcesses | frontend/src/components/GPUCard.jsx:77-87 | never more processes than the ranking. An empty filter keeps the same processes; a non-empty one keeps only processes matching it |
| GpuCard.FilterExact | frontend/src/components/GPUCard.jsx:77-87 | a non-empty filter keeps exactly the processes whose lowered name or command line contains the lowered filter, each as often as in the input, still in ranking order |
| GpuCard.ProcessTable.constructor | frontend/src/components/GPUCard.jsx:74-75 | the filter starts as "python" and the table empty |
| GpuCard.ProcessTable.SetProcessFilter | frontend/src/components/GPUCard.jsx:141-147 | typing sets the filter text |
| GpuCard.ProcessTable.RefreshFilteredProcesses | frontend/src/components/GPUCard.jsx:77-87 | the effect sets the table to the filtered ranking, a sub-multiset of the processes |
| ListView.ToOption | frontend/src/components/ListView.jsx:172-196 | an option's value is the pid in decimal |
| ListView.ToOptions | frontend/src/components/ListView.jsx:167-196 | one option per process, in order |
| ListView.ProcessOptions | frontend/src/components/ListView.jsx:163-197 | an empty search gives no options, and never more options than processes |
| ListView.HostProcesses | frontend/src/components/ListView.jsx:18 | a host without system information has no processes to search. Otherwise they are its system information's processes |
| ListView.SearchMatches | frontend/src/components/ListView.jsx:164-171 | an empty search matches nothing. A non-empty one keeps only processes matching its lowered text |
| ListView.SearchExact | frontend/src/components/ListView.jsx:163-171 | a non-empty search keeps exactly the matching processes, as often as they occur and in order, one option each |
| ListView.SearchIgnoresCase | frontend/src/components/ListView.jsx:166-170 | search texts equal after lower-casing give the same options |
| ListView.OptionValueIdentifiesPid | frontend/src/components/ListView.jsx:173 | an option's value is all digits and reads back as its pid |
| ListView.OptionValuesDistinct | frontend/src/components/ListView.jsx:173 | processes with different pids get different option values |
| ListView.SetCompactMode | frontend/src/components/ListView.jsx:10-15 | setting a host's mode adds that host and no other key |
| ListView.SetCompactModeEffect | frontend/src/components/ListView.jsx:10-15 | the host gets the chosen mode, every other host keeps its own |
| ListView.ToggleCompactFlips | frontend/src/components/ListView.jsx:200-208 | clicking a title flips that host's mode and no other host's |
| ListView.IsCompact | frontend/src/components/ListView.jsx:200 | a host missing from the map is compact. Otherwise it is compact exactly when its entry is true |
| ListView.CompactByDefault | frontend/src/components/ListView.jsx:200 | a host never toggled is compact |
| ListView.ScreenCopyCommand | frontend/src/components/ListView.jsx:49-63 | nothing is copied exactly when the session is attached and the user declines. Otherwise the command is `screen -x <name>` for an attached session and `screen -R <name>` for any other |
| ListView.ScreenStatusColor | frontend/src/components/ListView.jsx:104-108 | green exactly for attached sessions, orange otherwise |
| ListView.ConnectionStatus | frontend/src/components/ListView.jsx:156-161 | the tag reads `离线` exactly for offline hosts. It is red when offline, green when online |
| ListView.HeaderBackground | frontend/src/components/ListView.jsx:229-233 | an online host's header has its pastel title shade, an offline one is grey |
| ListView.HeaderBackgroundIgnoresOrder | frontend/src/components/ListView.jsx:230 | hostnames made of the same characters get the same header colour |
| ListView.RenderHost | frontend/src/components/ListView.jsx:199-268 | a card is compact unless toggled open. Only an open card has the search box. It has the screen or container table only when there are sessions or containers. Every card shows its GPUs |
| ListView.RenderList | frontend/src/components/ListView.jsx:199 | one card per host, in host order |
| ListView.CollapsedCardHidesDetails | frontend/src/components/ListView.jsx:239-247 | an untoggled host's card shows no search, sessions or containers |
| Formatters.TimeAgo | frontend/src/utils/formatters.js:13-39 | `刚刚` for a future time. Otherwise whole seconds below a minute, minutes below an hour, hours below a day, else days |
| Formatters.TimeAgoCounts | frontend/src/utils/formatters.js:22-38 | the text is a count and its unit: 0 to 59 seconds, 1 to 59 minutes, 1 to 23 hours, or 1 or more days, as the difference falls |
| Formatters.ColorKeysInPalette | frontend/src/utils/formatters.js:41-94 | the palette's keys are exactly the colour keys |
| Formatters.CodeUnits | frontend/src/utils/formatters.js:99 | a basic-plane character counts its own code |
| Formatters.CodeSum | frontend/src/utils/formatters.js:97-100 | the empty hostname sums to 0; a single character sums to its code units |
| Formatters.CodeSumConcat | frontend/src/utils/formatters.js:96-100 | the code-unit sum of a concatenation is the sum of the sums |
| Formatters.GetColorIndex | frontend/src/utils/formatters.js:96-102 | the loop picks the key at the code-unit sum modulo ten |
| Formatters.ColorKey | frontend/src/utils/formatters.js:96-102 | every hostname gets a key of the palette |
| Formatters.ColorIgnoresOrder | frontend/src/utils/formatters.js:96-102 | hostnames with the same characters in any order get the same sum and colour |
| Formatters.ColorPeriodic | frontend/src/utils/formatters.js:96-102 | appending characters whose codes sum to a multiple of ten keeps the colour |
| Formatters.EmptyHostnameIsPink | frontend/src/utils/formatters.js:94-101 | the empty hostname gets the first colour, pink |
| DockerTable.RunningContainers | frontend/src/components/DockerContainerTable.jsx:17-19 | never more rows than containers, and every row is running |
| DockerTable.RunningContainersExact | frontend/src/components/DockerContainerTable.jsx:17-19 | exactly the containers whose status mentions `Up` are listed, as often as they occur, in input order |
| DockerTable.StatusColor | frontend/src/components/DockerContainerTable.jsx:84-89 | green exactly when the status mentions `Up`. Otherwise red exactly when it mentions `Exited`, and default otherwise |
| DockerTable.ListedRowsAreGreen | frontend/src/components/DockerContainerTable.jsx:17-89 | every listed row has a green status tag |
| DockerTable.DisplayId | frontend/src/components/DockerContainerTable.jsx:55 | the shown id is the first twelve characters of the id, or all of it when shorter |
| DockerTable.CopyCommand | frontend/src/components/DockerContainerTable.jsx:22 | the command is `docker exec -it `, the full id, then ` bash` |
| DockerTable.CopyCommandInjective | frontend/src/components/DockerContainerTable.jsx:21-22 | different container ids give different commands |
| Header.MachineOptions | frontend/src/components/Header.jsx:8-16 | one menu item per host, in order, tagged exactly when the host is offline |
| Header.FirstOnline | frontend/src/components/Header.jsx:45-46 | there is no result exactly when no host is online. Otherwise it is the first online host |
| Header.WindowSelection | frontend/src/components/Header.jsx:42-48 | a truthy selection is kept. With no hosts the selection becomes undefined. Otherwise it becomes a host of the list. When the first online host has the empty, falsy name, the first host is taken instead |
| Header.WindowSelectsFirstOnline | frontend/src/components/Header.jsx:45-47 | with nothing selected, the first online host with a non-empty name is selected |
| Header.WindowSelectsFirstHost | frontend/src/components/Header.jsx:47 | with nothing selected and every host offline, the first host is selected |
| Header.MenuShown | frontend/src/components/Header.jsx:55 | the host menu is shown exactly in window mode with at least one host |
| Header.ButtonType | frontend/src/components/Header.jsx:29-40 | a button is `primary` exactly when its mode is the current one, `default` otherwise |
| App.DefaultSettings | frontend/src/App.jsx:25-29 | the defaults are the configured API URL, a 5000 ms refresh and the list view |
| App.InitialSettings | frontend/src/App.jsx:23-30 | the saved blob if there is one, else the defaults |
| App.InitialViewMode | frontend/src/App.jsx:15-19 | `list` when nothing is saved. Otherwise the saved `defaultViewMode`, or undefined when the blob has none |
| App.InitialModeMatchesSettings | frontend/src/App.jsx:15-30 | the initial view mode is the initial settings' `defaultViewMode` |
| App.WithViewMode | frontend/src/App.jsx:52-59 | the settings take the new `defaultViewMode` and keep every other key |
| App.PersistedModeReloads | frontend/src/App.jsx:15-59 | a blob saved by a mode change brings the app back in that mode with those settings |
| App.AppState.constructor | frontend/src/App.jsx:13-30 | no hosts, no selection, empty compact modes and search, and the initial mode and settings |
| App.AppState.FetchCompleted | frontend/src/App.jsx:33-40 | a failed poll changes nothing. A successful one replaces the hosts with the answer's, or with none when it has none |
| App.AppState.HandleViewModeChange | frontend/src/App.jsx:50-60 | the mode, the settings and the saved blob all take the new mode |
| App.AppState.PressListButton | frontend/src/components/Header.jsx:32-35 | list mode, saved, and the selection cleared |
| App.AppState.PressWindowButton | frontend/src/components/Header.jsx:42-49 | window mode, saved, and the selection as `WindowSelection` gives it |
| App.AppState.SelectMachine | frontend/src/components/Header.jsx:59 | a menu click selects that host |
| App.AppState.ToggleCompact | frontend/src/components/ListView.jsx:208 | a title click flips that host's compact mode |
| App.AppState.SetSearchText | frontend/src/components/ListView.jsx:38 | typing sets the shared search text |
| App.AppState.ShowsListView | frontend/src/App.jsx:73-90 | the list view is shown exactly in list mode |
| App.SnapshotForgetsMissingHosts | frontend/src/App.jsx:33-40 | after a successful poll the menu lists no host missing from the snapshot, whatever hosts were held before: `FetchCompleted` leaves exactly `Polled` of the outcome |
| Text.Lower | frontend/src/components/GPUCard.jsx:61 | lower-casing keeps the length and lowers each character |
| Text.JoinSplit | backend/gpu_collector.py:119 | joining the split fields gives back the line |
| Text.SplitJoin | backend/gpu_collector.py:17 | splitting joined separator-free fields gives back the fields |
| Text.StripShape | backend/gpu_collector.py:95 | `strip()` removes a whitespace prefix and a whitespace suffix and nothing else |
| Text.DecimalRoundTrip | frontend/src/components/ListView.jsx:173 | a pid printed in decimal reads back as itself |

## Left out

- **Network and timing.** The HTTP layer is not modelled: Flask, CORS, axios, `requests.post`, the polling interval and the timing of the collector's rounds. Each poll, report and query is one call on the model.
- **Concurrency.** Overlapping polls and concurrent requests to the server are not modelled; every operation is atomic.
- **Operating-system calls.** psutil, gpustat, the UDP socket, `subprocess` and `socket.gethostname` are parameters, as described above. `get_system_info`'s CPU, memory and disk figures are not modelled, because they are floating-point readings passed through unchanged.
- **Timestamps.** ISO timestamps are whole seconds, a number in the payload. Parsing them with `datetime.fromisoformat` and sub-second precision are not modelled. `moment().diff` is the `diff` argument of `TimeAgo`.
- **Floating-point display.** The following are not modelled: `formatBytes`, the `toFixed(1)` rendering of CPU and memory percentages, the rounding of a GPU card's memory percentage, and the moment date format.
- **Widgets.** The clipboard, the `Modal.confirm` dialog (modelled as its answer, `confirmed`), layout and styling are not modelled, and neither are the antd widgets' own behaviours. In particular the GPU table's column sorters are left out, including the creation-time column with `defaultSortOrder`, which re-orders the rows on screen. `GpuCard.FilterProcesses` is the table's `dataSource`.
- **Docker table.** Its CPU and memory columns are not modelled; the collector never sends those fields.
- **Other views.** `SettingsModal` and `WindowView` are not part of this model.
- **Host order.** The client's host order is taken as the order of the JSON object's entries.
- **Strings.** Lower-casing covers ASCII letters only. `strip()` uses Python's whitespace set.
- WebServer.Report: a hostname that is a JSON number, boolean or null is treated as missing, whereas Python stores it under that key. An array or object hostname fails in both, with the store unchanged, because Python cannot hash it.
- GpuCard.SortProcesses: modelled as a stable insertion sort, which matches the stable `Array.prototype.sort`. Stability itself is not stated, only sortedness and permutation.
- GpuCollector.ParseContainerLine: a wrong field count makes the unpacking raise. This is modelled as the whole container list becoming empty. Other exceptions of `docker` are modelled as `None` output.
