/**
 * The per-GPU card: colour thresholds, the three-key process ranking, the
 * text filter defaulting to "python", and the card's filter state.
 */
module GpuCard {
  import opened Text
  import opened Seqs
  import opened Records

  // ---------------------------------------------------------------- colours

  const UtilizationPalette: seq<string> := ["#52c41a", "#fadb14", "#ffa940", "#ff4d4f"]
  const TemperaturePalette: seq<string> := ["green", "gold", "red"]

  /** Colour of a utilization or memory percentage. */
  function UtilizationColor(percent: int): (c: string)
    ensures c in UtilizationPalette
    ensures c == "#ff4d4f" <==> percent >= 80
    ensures c == "#ffa940" <==> 50 <= percent < 80
    ensures c == "#fadb14" <==> 20 <= percent < 50
    ensures c == "#52c41a" <==> percent < 20
  {
    if percent >= 80 then "#ff4d4f"
    else if percent >= 50 then "#ffa940"
    else if percent >= 20 then "#fadb14"
    else "#52c41a"
  }

  /** Colour of a temperature tag. */
  function TemperatureColor(temp: int): (c: string)
    ensures c in TemperaturePalette
    ensures c == "red" <==> temp >= 80
    ensures c == "gold" <==> 60 <= temp < 80
    ensures c == "green" <==> temp < 60
  {
    if temp >= 80 then "red" else if temp >= 60 then "gold" else "green"
  }

  /** Position of a colour in its palette: higher is more alarming. */
  function Severity(palette: seq<string>, c: string): nat {
    if palette == [] || palette[0] == c then 0 else 1 + Severity(palette[1..], c)
  }

  /** A higher reading never gets a less alarming colour. */
  lemma ColorsMonotone(a: int, b: int)
    requires a <= b
    ensures Severity(UtilizationPalette, UtilizationColor(a)) <= Severity(UtilizationPalette, UtilizationColor(b))
    ensures Severity(TemperaturePalette, TemperatureColor(a)) <= Severity(TemperaturePalette, TemperatureColor(b))
  {
  }

  // ---------------------------------------------------------------- ranking

  predicate IsPython(p: Process) {
    Contains(Lower(p.info.name), "python")
  }

  /** The comparator handed to `sort`: negative means `a` goes first. */
  function Compare(a: Process, b: Process): (r: real)
    ensures IsPython(a) && !IsPython(b) ==> r < 0.0
    ensures r == 0.0 <==>
      IsPython(a) == IsPython(b) && a.gpuMemoryUsage == b.gpuMemoryUsage && a.info.createTime == b.info.createTime
  {
    if IsPython(a) && !IsPython(b) then -1.0
    else if !IsPython(a) && IsPython(b) then 1.0
    else if a.gpuMemoryUsage != b.gpuMemoryUsage then (b.gpuMemoryUsage - a.gpuMemoryUsage) as real
    else b.info.createTime - a.info.createTime
  }

  /** `a` may stand before `b` in the sorted table. */
  predicate Precedes(a: Process, b: Process) {
    Compare(a, b) <= 0.0
  }

  /** The comparator's order spelled out key by key. */
  lemma PrecedesByKeys(a: Process, b: Process)
    ensures Precedes(a, b) <==>
      || (IsPython(a) && !IsPython(b))
      || (IsPython(a) == IsPython(b) && a.gpuMemoryUsage > b.gpuMemoryUsage)
      || (IsPython(a) == IsPython(b) && a.gpuMemoryUsage == b.gpuMemoryUsage && a.info.createTime >= b.info.createTime)
  {
  }

  /** The comparator is consistent: swapping the arguments negates it. */
  lemma CompareAntisymmetric(a: Process, b: Process)
    ensures Compare(a, b) == -Compare(b, a)
  {
  }

  /** The comparator is a total preorder, so `sort` has a well-defined result. */
  lemma PrecedesTotalPreorder(a: Process, b: Process, c: Process)
    ensures Precedes(a, b) || Precedes(b, a)
    ensures Precedes(a, b) && Precedes(b, c) ==> Precedes(a, c)
  {
  }

  ghost predicate Sorted(s: seq<Process>) {
    Pairwise(s, Precedes)
  }

  /** Insert `x` before the first element it may precede (stable). */
  function Insert(x: Process, s: seq<Process>): (r: seq<Process>)
    ensures multiset(r) == multiset(s) + multiset{x}
    ensures |r| == |s| + 1
  {
    if s == [] || Precedes(x, s[0]) then [x] + s
    else
      assert s == [s[0]] + s[1..];
      [s[0]] + Insert(x, s[1..])
  }

  lemma {:induction false} InsertSorted(x: Process, s: seq<Process>)
    requires Sorted(s)
    ensures Sorted(Insert(x, s))
  {
    if s == [] || Precedes(x, s[0]) {
      forall j | 0 <= j < |s| ensures Precedes(x, s[j]) {
        if j > 0 {
          PrecedesTotalPreorder(x, s[0], s[j]);
        }
      }
      PrependSorted(x, s);
    } else {
      var tail := s[1..];
      SortedTail(s);
      InsertSorted(x, tail);
      var rest := Insert(x, tail);
      PrecedesTotalPreorder(x, s[0], x);
      forall j | 0 <= j < |rest| ensures Precedes(s[0], rest[j]) {
        InsertMember(x, tail, rest[j]);
      }
      PrependSorted(s[0], rest);
    }
  }

  /** An element that precedes the whole of a sorted sequence can go in front of it. */
  lemma PrependSorted(h: Process, t: seq<Process>)
    requires Sorted(t)
    requires forall j :: 0 <= j < |t| ==> Precedes(h, t[j])
    ensures Sorted([h] + t)
  {
    var r := [h] + t;
    forall i, j | 0 <= i < j < |r| ensures Precedes(r[i], r[j]) {
      assert r[j] == t[j - 1];
      if i > 0 {
        assert r[i] == t[i - 1];
      }
    }
  }

  /** The tail of a sorted sequence is sorted, and its head precedes all of it. */
  lemma SortedTail(s: seq<Process>)
    requires Sorted(s) && s != []
    ensures Sorted(s[1..])
    ensures forall y :: y in s[1..] ==> Precedes(s[0], y)
  {
    var tail := s[1..];
    forall i, j | 0 <= i < j < |tail| ensures Precedes(tail[i], tail[j]) {
      assert tail[i] == s[i + 1] && tail[j] == s[j + 1];
    }
    forall y | y in tail ensures Precedes(s[0], y) {
      var k :| 0 <= k < |tail| && tail[k] == y;
      assert s[k + 1] == y;
    }
  }

  /** What `Insert` returns is the new element or one of the old ones. */
  lemma InsertMember(x: Process, s: seq<Process>, y: Process)
    requires y in Insert(x, s)
    ensures y == x || y in s
  {
    assert y in multiset(Insert(x, s));
  }

  /** `[...processes].sort(compare)`: a sorted copy; the input is not touched. */
  function SortProcesses(processes: seq<Process>): (r: seq<Process>)
    ensures multiset(r) == multiset(processes)
    ensures |r| == |processes|
  {
    if processes == [] then []
    else
      assert processes == [processes[0]] + processes[1..];
      Insert(processes[0], SortProcesses(processes[1..]))
  }

  /** The ranking is sorted under the comparator. */
  lemma {:induction false} SortProcessesSorted(processes: seq<Process>)
    ensures Sorted(SortProcesses(processes))
  {
    if processes != [] {
      SortProcessesSorted(processes[1..]);
      InsertSorted(processes[0], SortProcesses(processes[1..]));
    }
  }

  /**
   * What the ranking promises: python processes first; within a group, GPU
   * memory non-increasing; within equal memory, newest first.
   */
  lemma RankingOrder(processes: seq<Process>)
    ensures var r := SortProcesses(processes);
      && (forall i, j :: 0 <= i < |r| && 0 <= j < |r| && IsPython(r[i]) && !IsPython(r[j]) ==> i < j)
      && (forall i, j :: 0 <= i < j < |r| && IsPython(r[i]) == IsPython(r[j]) ==>
            r[i].gpuMemoryUsage >= r[j].gpuMemoryUsage)
      && (forall i, j ::
            (0 <= i < j < |r| && IsPython(r[i]) == IsPython(r[j]) && r[i].gpuMemoryUsage == r[j].gpuMemoryUsage)
            ==> r[i].info.createTime >= r[j].info.createTime)
  {
    var r := SortProcesses(processes);
    SortProcessesSorted(processes);
    forall i, j | 0 <= i < |r| && 0 <= j < |r| && IsPython(r[i]) && !IsPython(r[j]) ensures i < j {
    }
    forall i, j | 0 <= i < j < |r| && IsPython(r[i]) == IsPython(r[j])
      ensures r[i].gpuMemoryUsage >= r[j].gpuMemoryUsage
    {
      assert Precedes(r[i], r[j]);
    }
  }

  // ---------------------------------------------------------------- filter

  /** The filter's initial value, and the search box's default text. */
  const DefaultProcessFilter: string := "python"

  /** The table contents: the ranking, narrowed by the filter text when it is non-empty. */
  function FilterProcesses(processes: seq<Process>, filter: string): (r: seq<Process>)
    ensures |r| <= |processes|
    ensures filter == "" ==> multiset(r) == multiset(processes)
    ensures filter != "" ==> forall i :: 0 <= i < |r| ==> MatchesQuery(r[i], Lower(filter))
  {
    var sorted := SortProcesses(processes);
    if filter == "" then sorted
    else
      var searchLower := Lower(filter);
      Filter(sorted, p => MatchesQuery(p, searchLower))
  }

  /** With an empty filter nothing is dropped. */
  lemma EmptyFilterKeepsAll(processes: seq<Process>)
    ensures FilterProcesses(processes, "") == SortProcesses(processes)
    ensures multiset(FilterProcesses(processes, "")) == multiset(processes)
  {
  }

  /**
   * With a non-empty filter exactly the matching processes are kept (each as
   * often as it occurs in the input), and they stay in ranking order.
   */
  lemma {:induction false} FilterExact(processes: seq<Process>, filter: string, x: Process)
    requires filter != ""
    ensures var r := FilterProcesses(processes, filter);
      && multiset(r)[x] == (if MatchesQuery(x, Lower(filter)) then multiset(processes)[x] else 0)
      && Sorted(r)
  {
    var sorted := SortProcesses(processes);
    var searchLower := Lower(filter);
    var keep := p => MatchesQuery(p, searchLower);
    FilterCount(sorted, keep, x);
    SortProcessesSorted(processes);
    FilterPairwise(sorted, keep, Precedes);
  }

  /** The card's filter state: the text and the table it produced. */
  class ProcessTable {
    var processFilter: string
    var filteredProcesses: seq<Process>

    constructor()
      ensures processFilter == DefaultProcessFilter && filteredProcesses == []
    {
      processFilter := DefaultProcessFilter;
      filteredProcesses := [];
    }

    /** Typing in the search box (or clearing it). */
    method SetProcessFilter(value: string)
      modifies this`processFilter
      ensures processFilter == value
    {
      processFilter := value;
    }

    /** The effect that runs after the processes or the filter changed. */
    method RefreshFilteredProcesses(processes: seq<Process>)
      modifies this`filteredProcesses
      ensures filteredProcesses == FilterProcesses(processes, processFilter)
      ensures multiset(filteredProcesses) <= multiset(processes)
    {
      filteredProcesses := FilterProcesses(processes, processFilter);
      if processFilter != "" {
        forall x ensures multiset(filteredProcesses)[x] <= multiset(processes)[x] {
          FilterExact(processes, processFilter, x);
        }
      }
    }
  }
}
