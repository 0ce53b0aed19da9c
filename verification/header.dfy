/**
 * The header: the menu of hosts shown in window mode and the selection rules
 * of the list and window buttons.
 */
module Header {
  import opened Wrappers
  import opened Records

  /** One menu item: the hostname, tagged when the host is offline. */
  datatype MenuOption = MenuOption(key: string, offlineTag: bool)

  function MachineOptions(entries: Entries): (options: seq<MenuOption>)
    ensures |options| == |entries|
    ensures forall i :: 0 <= i < |entries| ==>
      options[i].key == entries[i].0 && (options[i].offlineTag <==> !entries[i].1.isOnline)
  {
    if entries == [] then []
    else
      var first := MenuOption(entries[0].0, !entries[0].1.isOnline);
      [first] + MachineOptions(entries[1..])
  }

  /** The selected machine: `null`, `undefined`, or a hostname. */
  datatype Selection = NoSelection | Undefined | Selected(host: string)

  /** `!selectedMachine` is false: a non-empty hostname is selected. */
  predicate Truthy(s: Selection) {
    s.Selected? && s.host != ""
  }

  /** The hostname of the first online host, in entry order. */
  function FirstOnline(entries: Entries): (r: Option<string>)
    ensures r.None? <==> forall i :: 0 <= i < |entries| ==> !entries[i].1.isOnline
    ensures r.Some? ==> exists i ::
      && 0 <= i < |entries| && entries[i].0 == r.value && entries[i].1.isOnline
      && forall j :: 0 <= j < i ==> !entries[j].1.isOnline
  {
    if entries == [] then None
    else if entries[0].1.isOnline then Some(entries[0].0)
    else
      var r := FirstOnline(entries[1..]);
      assert forall i :: 1 <= i < |entries| ==> entries[1..][i - 1] == entries[i];
      r
  }

  /**
   * Pressing the window button keeps a selection; otherwise it selects the
   * first online host, falling back to the first host, or to nothing when
   * there are no hosts.
   */
  function WindowSelection(current: Selection, entries: Entries): (next: Selection)
    ensures Truthy(current) ==> next == current
    ensures !Truthy(current) && entries == [] ==> next == Undefined
    ensures !Truthy(current) && entries != [] ==> next.Selected?
    ensures !Truthy(current) && next.Selected? ==>
      (exists i :: 0 <= i < |entries| && entries[i].0 == next.host)
    ensures !Truthy(current) && FirstOnline(entries) == Some("") ==> entries != [] && next == Selected(entries[0].0)
  {
    if Truthy(current) then current
    else
      var online := FirstOnline(entries);
      if online.Some? && online.value != "" then Selected(online.value)
      else if entries != [] then Selected(entries[0].0)
      else Undefined
  }

  /** With nothing selected and some online host, the first online host is selected. */
  lemma WindowSelectsFirstOnline(current: Selection, entries: Entries, i: nat)
    requires !Truthy(current)
    requires i < |entries| && entries[i].1.isOnline && entries[i].0 != ""
    requires forall j :: 0 <= j < i ==> !entries[j].1.isOnline
    ensures WindowSelection(current, entries) == Selected(entries[i].0)
  {
    var online := FirstOnline(entries);
    var k :| 0 <= k < |entries| && entries[k].0 == online.value && entries[k].1.isOnline
      && forall j :: 0 <= j < k ==> !entries[j].1.isOnline;
    assert k == i;
  }

  /** With nothing selected and every host offline, the first host is selected. */
  lemma WindowSelectsFirstHost(current: Selection, entries: Entries)
    requires !Truthy(current) && entries != []
    requires forall i :: 0 <= i < |entries| ==> !entries[i].1.isOnline
    ensures WindowSelection(current, entries) == Selected(entries[0].0)
  {
  }

  /** The host menu is shown in window mode when there are hosts. */
  predicate MenuShown(viewMode: Option<Json>, entries: Entries)
    ensures MenuShown(viewMode, entries) <==> viewMode == Some(JStr("window")) && |entries| > 0
  {
    viewMode == Some(JStr("window")) && |MachineOptions(entries)| > 0
  }

  /** A button is highlighted when its mode is the current one. */
  function ButtonType(viewMode: Option<Json>, mode: string): (kind: string)
    ensures kind == "primary" <==> viewMode == Some(JStr(mode))
    ensures kind != "primary" ==> kind == "default"
  {
    if viewMode == Some(JStr(mode)) then "primary" else "default"
  }
}
