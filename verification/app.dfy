/**
 * The application state: the latest snapshot of all hosts, the view mode,
 * the settings and their saved copy, and the selection and search state the
 * views share.
 */
module App {
  import opened Wrappers
  import opened Records
  import opened ListView
  import opened Header

  /** The settings object, and the blob saved under `gpu-monitor-settings`. */
  type Settings = map<string, Json>

  /** The settings used when nothing was saved. */
  function DefaultSettings(apiBaseUrl: string): (s: Settings)
    ensures s.Keys == {"apiUrl", "refreshInterval", "defaultViewMode"}
    ensures s["apiUrl"] == JStr(apiBaseUrl) && s["refreshInterval"] == JNum(5000)
    ensures s["defaultViewMode"] == JStr("list")
  {
    map["apiUrl" := JStr(apiBaseUrl), "refreshInterval" := JNum(5000), "defaultViewMode" := JStr("list")]
  }

  /** The saved blob if there is one, else the defaults. */
  function InitialSettings(saved: Option<Settings>, apiBaseUrl: string): (s: Settings)
    ensures saved.Some? ==> s == saved.value
    ensures saved.None? ==> s == DefaultSettings(apiBaseUrl)
  {
    if saved.Some? then saved.value else DefaultSettings(apiBaseUrl)
  }

  /**
   * The saved `defaultViewMode`; `None` (undefined) when a blob was saved
   * without one; "list" when nothing was saved.
   */
  function InitialViewMode(saved: Option<Settings>): (mode: Option<Json>)
    ensures saved.None? ==> mode == Some(JStr("list"))
    ensures saved.Some? ==> (mode.Some? <==> "defaultViewMode" in saved.value)
    ensures saved.Some? && mode.Some? ==> mode.value == saved.value["defaultViewMode"]
  {
    if saved.None? then Some(JStr("list"))
    else if "defaultViewMode" in saved.value then Some(saved.value["defaultViewMode"])
    else None
  }

  /** The view mode and settings an app starts with agree with the defaults it starts from. */
  lemma InitialModeMatchesSettings(saved: Option<Settings>, apiBaseUrl: string)
    requires saved.None? || "defaultViewMode" in saved.value
    ensures InitialViewMode(saved) == Some(InitialSettings(saved, apiBaseUrl)["defaultViewMode"])
  {
  }

  /** The end of one poll of the query endpoint. */
  datatype FetchOutcome =
    | Failed                              // the request raised
    | Received(machines: Option<Entries>) // `response.data.machines`, when present and truthy

  /** `handleViewModeChange` applied to a settings object. */
  function WithViewMode(s: Settings, mode: string): (r: Settings)
    ensures r.Keys == s.Keys + {"defaultViewMode"}
    ensures r["defaultViewMode"] == JStr(mode)
    ensures forall k :: k in s && k != "defaultViewMode" ==> r[k] == s[k]
  {
    s["defaultViewMode" := JStr(mode)]
  }

  /** A blob saved by a view-mode change brings the app back in that mode, with the same settings. */
  lemma PersistedModeReloads(s: Settings, mode: string, apiBaseUrl: string)
    ensures InitialViewMode(Some(WithViewMode(s, mode))) == Some(JStr(mode))
    ensures InitialSettings(Some(WithViewMode(s, mode)), apiBaseUrl) == WithViewMode(s, mode)
  {
  }

  class AppState {
    var machines: Entries
    var selectedMachine: Selection
    var viewMode: Option<Json>
    var compactModes: map<string, bool>
    var searchText: string
    var settings: Settings
    /** What local storage holds under `gpu-monitor-settings`, already parsed. */
    var storage: Option<Settings>

    constructor(saved: Option<Settings>, apiBaseUrl: string)
      ensures machines == [] && selectedMachine == NoSelection
      ensures viewMode == InitialViewMode(saved) && settings == InitialSettings(saved, apiBaseUrl)
      ensures compactModes == map[] && searchText == "" && storage == saved
    {
      machines := [];
      selectedMachine := NoSelection;
      viewMode := InitialViewMode(saved);
      compactModes := map[];
      searchText := "";
      settings := InitialSettings(saved, apiBaseUrl);
      storage := saved;
    }

    /** `fetchData`: a received snapshot replaces the hosts wholesale; a failure changes nothing. */
    method FetchCompleted(outcome: FetchOutcome)
      modifies this`machines
      ensures outcome.Failed? ==> machines == old(machines)
      ensures outcome.Received? && outcome.machines.Some? ==> machines == outcome.machines.value
      ensures outcome.Received? && outcome.machines.None? ==> machines == []
      ensures machines == Polled(old(machines), outcome)
    {
      match outcome {
        case Failed =>
        case Received(m) =>
          machines := if m.Some? then m.value else [];
      }
    }

    /** `handleViewModeChange`: the mode, the settings and the saved blob all take the new mode. */
    method HandleViewModeChange(mode: string)
      modifies this`viewMode, this`settings, this`storage
      ensures viewMode == Some(JStr(mode))
      ensures settings == WithViewMode(old(settings), mode)
      ensures storage == Some(WithViewMode(old(settings), mode))
    {
      viewMode := Some(JStr(mode));
      var persisted := WithViewMode(settings, mode);
      settings := persisted;
      storage := Some(persisted);
    }

    /** The list button. */
    method PressListButton()
      modifies this`viewMode, this`settings, this`storage, this`selectedMachine
      ensures viewMode == Some(JStr("list")) && selectedMachine == NoSelection
      ensures settings == WithViewMode(old(settings), "list")
      ensures storage == Some(WithViewMode(old(settings), "list"))
    {
      HandleViewModeChange("list");
      selectedMachine := NoSelection;
    }

    /** The window button. */
    method PressWindowButton()
      modifies this`viewMode, this`settings, this`storage, this`selectedMachine
      ensures viewMode == Some(JStr("window"))
      ensures selectedMachine == WindowSelection(old(selectedMachine), machines)
      ensures settings == WithViewMode(old(settings), "window")
      ensures storage == Some(WithViewMode(old(settings), "window"))
    {
      HandleViewModeChange("window");
      selectedMachine := WindowSelection(selectedMachine, machines);
    }

    /** A click on a host in the menu. */
    method SelectMachine(key: string)
      modifies this`selectedMachine
      ensures selectedMachine == Selected(key)
    {
      selectedMachine := Selected(key);
    }

    /** A click on a host card's title in the list view. */
    method ToggleCompact(hostname: string)
      modifies this`compactModes
      ensures compactModes == SetCompactMode(old(compactModes), hostname, !IsCompact(old(compactModes), hostname))
      ensures IsCompact(compactModes, hostname) == !IsCompact(old(compactModes), hostname)
    {
      compactModes := SetCompactMode(compactModes, hostname, !IsCompact(compactModes, hostname));
    }

    /** Typing in the host-wide search box. */
    method SetSearchText(text: string)
      modifies this`searchText
      ensures searchText == text
    {
      searchText := text;
    }

    /** The list view is shown exactly when the mode is "list"; the window view otherwise. */
    function ShowsListView(): (shown: bool)
      reads this
      ensures shown <==> viewMode == Some(JStr("list"))
    {
      viewMode == Some(JStr("list"))
    }
  }

  /** The hosts the client holds once a poll has completed with `outcome`. */
  function Polled(previous: Entries, outcome: FetchOutcome): Entries
  {
    match outcome
    case Failed => previous
    case Received(m) => if m.Some? then m.value else []
  }

  /**
   * After a successful poll, hosts absent from the snapshot are gone from the menu,
   * whatever the client held before: `FetchCompleted` replaces the hosts wholesale.
   */
  lemma SnapshotForgetsMissingHosts(previous: Entries, snapshot: Entries, h: string)
    requires forall i :: 0 <= i < |snapshot| ==> snapshot[i].0 != h
    ensures var options := MachineOptions(Polled(previous, Received(Some(snapshot))));
      forall i :: 0 <= i < |options| ==> options[i].key != h
  {
  }
}
