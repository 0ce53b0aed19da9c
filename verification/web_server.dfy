/**
 * The central server: one in-memory store of the latest report per hostname,
 * overwritten by every report and never shrunk, and a query that returns every
 * stored host tagged with whether its last report is recent enough.
 */
module WebServer {
  import opened Wrappers
  import opened Records

  /** A reported JSON object. */
  type Payload = map<string, Json>

  /** Seconds after which a host's last report no longer counts as online. */
  const DataExpiryTime: int := 30

  datatype ServerError =
    | MissingHostname   // `data['hostname']` fails
    | MissingTimestamp  // `data['timestamp']` fails after the store was written
    | BadTimestamp      // a stored timestamp cannot be read back

  /** The reporting host's name, when the payload carries one. */
  function Hostname(data: Payload): Option<string> {
    if "hostname" in data && data["hostname"].JStr? then Some(data["hostname"].str) else None
  }

  /** The report time of a stored payload, in seconds. */
  function Timestamp(data: Payload): Option<int> {
    if "timestamp" in data && data["timestamp"].JNum? then Some(data["timestamp"].n) else None
  }

  /** A host is online when its last report is at most 30 seconds old. */
  predicate IsOnline(now: int, lastUpdate: int) {
    now - lastUpdate <= DataExpiryTime
  }

  /** `{**data, 'is_online': online}`. */
  function WithStatus(data: Payload, online: bool): (r: Payload)
    ensures r.Keys == data.Keys + {"is_online"}
    ensures r["is_online"] == JBool(online)
    ensures forall k :: k in data && k != "is_online" ==> r[k] == data[k]
  {
    data["is_online" := JBool(online)]
  }

  /** The new store and the answer after one report. */
  datatype ReportOutcome = ReportOutcome(store: map<string, Payload>, response: Result<string, ServerError>)

  /**
   * One call of the report endpoint: the payload replaces the reporter's
   * entry; the answer is `success` unless a required key is missing.
   */
  function Report(store: map<string, Payload>, data: Payload): (out: ReportOutcome)
    ensures Hostname(data).None? ==> out == ReportOutcome(store, Err(MissingHostname))
    ensures Hostname(data).Some? ==>
      && out.store.Keys == store.Keys + {Hostname(data).value}
      && out.store[Hostname(data).value] == data
      && (forall h :: h in store && h != Hostname(data).value ==> out.store[h] == store[h])
    ensures out.response.Ok? <==> Hostname(data).Some? && "timestamp" in data
    ensures out.response.Ok? ==> out.response.value == "success"
  {
    match Hostname(data)
    case None => ReportOutcome(store, Err(MissingHostname))
    case Some(h) =>
      var updated := store[h := data];
      if "timestamp" in data then ReportOutcome(updated, Ok("success"))
      else ReportOutcome(updated, Err(MissingTimestamp))
  }

  /**
   * The query's answer: every stored host, stale ones included, each with
   * `is_online` computed from its own timestamp; an error if any stored
   * timestamp is unreadable.
   */
  function StatusView(store: map<string, Payload>, now: int): (r: Result<map<string, Payload>, ServerError>)
    ensures r.Ok? <==> forall h :: h in store ==> Timestamp(store[h]).Some?
    ensures r.Err? ==> r.error == BadTimestamp
    ensures r.Ok? ==> r.value.Keys == store.Keys
    ensures r.Ok? ==> forall h :: h in store ==>
      r.value[h] == WithStatus(store[h], IsOnline(now, Timestamp(store[h]).value))
  {
    if forall h :: h in store ==> Timestamp(store[h]).Some? then
      Ok(map h | h in store :: WithStatus(store[h], IsOnline(now, Timestamp(store[h]).value)))
    else
      Err(BadTimestamp)
  }

  /**
   * Each listed host keeps every field of its payload and gains `is_online`,
   * true exactly when its timestamp is at most 30 seconds old.
   */
  lemma StatusViewEntry(store: map<string, Payload>, now: int, h: string)
    requires StatusView(store, now).Ok? && h in store
    ensures var entry := StatusView(store, now).value[h];
      && entry.Keys == store[h].Keys + {"is_online"}
      && entry["is_online"] == JBool(now - Timestamp(store[h]).value <= 30)
      && (forall k :: k in store[h] && k != "is_online" ==> entry[k] == store[h][k])
  {
  }

  /** The store after a sequence of reports, in order. */
  function Replay(store: map<string, Payload>, reports: seq<Payload>): map<string, Payload> {
    if reports == [] then store
    else Report(Replay(store, reports[..|reports| - 1]), reports[|reports| - 1]).store
  }

  /** Reporting the same payload twice is reporting it once. */
  lemma ReportIdempotent(store: map<string, Payload>, data: Payload)
    ensures Report(Report(store, data).store, data) == Report(store, data)
  {
  }

  /** No sequence of reports removes a host. */
  lemma {:induction false} ReplayNeverShrinks(store: map<string, Payload>, reports: seq<Payload>)
    ensures store.Keys <= Replay(store, reports).Keys
  {
    if reports != [] {
      ReplayNeverShrinks(store, reports[..|reports| - 1]);
    }
  }

  /** A host that stops reporting keeps its last payload. */
  lemma {:induction false} ReplayKeepsSilentHost(store: map<string, Payload>, reports: seq<Payload>, h: string)
    requires h in store
    requires forall i :: 0 <= i < |reports| ==> Hostname(reports[i]) != Some(h)
    ensures h in Replay(store, reports) && Replay(store, reports)[h] == store[h]
  {
    if reports != [] {
      ReplayKeepsSilentHost(store, reports[..|reports| - 1], h);
    }
  }

  /**
   * A host whose last report is older than 30 seconds is still listed, with
   * its last payload and `is_online` false.
   */
  lemma SilentHostListedOffline(store: map<string, Payload>, reports: seq<Payload>, h: string, now: int)
    requires h in store && Timestamp(store[h]).Some?
    requires now - Timestamp(store[h]).value > DataExpiryTime
    requires forall i :: 0 <= i < |reports| ==> Hostname(reports[i]) != Some(h)
    requires StatusView(Replay(store, reports), now).Ok?
    ensures h in StatusView(Replay(store, reports), now).value
    ensures StatusView(Replay(store, reports), now).value[h] == WithStatus(store[h], false)
  {
    var r := Replay(store, reports);
    ReplayKeepsSilentHost(store, reports, h);
  }

  /** The in-memory store of the server (`gpu_data_store`). */
  class GpuDataStore {
    var store: map<string, Payload>

    constructor()
      ensures store == map[]
    {
      store := map[];
    }

    /** The report endpoint. */
    method ReportGpuStats(data: Payload) returns (response: Result<string, ServerError>)
      modifies this
      ensures Hostname(data).None? ==> store == old(store)
      ensures Hostname(data).Some? ==> store == old(store)[Hostname(data).value := data]
      ensures ReportOutcome(store, response) == Report(old(store), data)
    {
      var hostname := Hostname(data);
      if hostname.None? {
        return Err(MissingHostname);
      }
      store := store[hostname.value := data];
      if "timestamp" !in data {
        return Err(MissingTimestamp);
      }
      response := Ok("success");
    }

    /** The query endpoint: reads the store, builds the answer host by host. */
    method GetGpuStats(now: int) returns (result: Result<map<string, Payload>, ServerError>)
      ensures result == StatusView(store, now)
    {
      var machines: map<string, Payload> := map[];
      var remaining := store.Keys;
      while remaining != {}
        invariant remaining <= store.Keys
        invariant machines.Keys == store.Keys - remaining
        invariant forall h :: h in machines ==>
          Timestamp(store[h]).Some? && machines[h] == WithStatus(store[h], IsOnline(now, Timestamp(store[h]).value))
        decreases remaining
      {
        var h :| h in remaining;
        var lastUpdate := Timestamp(store[h]);
        if lastUpdate.None? {
          UnreadableFails(store, now, h);
          return Err(BadTimestamp);
        }
        machines := machines[h := WithStatus(store[h], IsOnline(now, lastUpdate.value))];
        remaining := remaining - {h};
      }
      AllStatused(store, now, machines);
      result := Ok(machines);
    }
  }

  /** One unreadable timestamp makes the query fail. */
  lemma UnreadableFails(store: map<string, Payload>, now: int, h: string)
    requires h in store && Timestamp(store[h]).None?
    ensures StatusView(store, now) == Err(BadTimestamp)
  {
  }

  /** A map holding every stored host with its status is the query's answer. */
  lemma AllStatused(store: map<string, Payload>, now: int, machines: map<string, Payload>)
    requires machines.Keys == store.Keys
    requires forall h :: h in machines ==>
      Timestamp(store[h]).Some? && machines[h] == WithStatus(store[h], IsOnline(now, Timestamp(store[h]).value))
    ensures StatusView(store, now) == Ok(machines)
  {
    var r := StatusView(store, now);
    assert r.Ok? by {
      forall h | h in store ensures Timestamp(store[h]).Some? {
        assert h in machines;
      }
    }
    assert r.value.Keys == machines.Keys;
    assert r.value == machines;
  }
}
