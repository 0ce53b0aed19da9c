/**
 * The container table of a host: only running containers are listed, each
 * with a shortened id, a status colour and a copyable `docker exec` command.
 */
module DockerTable {
  import opened Text
  import opened Seqs
  import opened Records

  /** A container whose status mentions "Up" is running. */
  predicate IsRunning(c: Container) {
    Contains(c.status, "Up")
  }

  /** The rows of the table: the running containers, in input order. */
  function RunningContainers(containers: seq<Container>): (rows: seq<Container>)
    ensures |rows| <= |containers|
    ensures forall i :: 0 <= i < |rows| ==> IsRunning(rows[i])
  {
    Filter(containers, IsRunning)
  }

  /** Exactly the running containers are listed, as often as they occur, in input order. */
  lemma RunningContainersExact(containers: seq<Container>, c: Container)
    ensures c in RunningContainers(containers) <==> c in containers && IsRunning(c)
    ensures multiset(RunningContainers(containers))[c] == if IsRunning(c) then multiset(containers)[c] else 0
    ensures IsSubsequence(RunningContainers(containers), containers)
  {
    FilterMembership(containers, IsRunning, c);
    FilterCount(containers, IsRunning, c);
    FilterIsSubsequence(containers, IsRunning);
  }

  /** The colour of a status tag. */
  function StatusColor(status: string): (color: string)
    ensures color == "green" <==> Contains(status, "Up")
    ensures color == "red" <==> !Contains(status, "Up") && Contains(status, "Exited")
    ensures color == "default" <==> !Contains(status, "Up") && !Contains(status, "Exited")
  {
    if Contains(status, "Up") then "green"
    else if Contains(status, "Exited") then "red"
    else "default"
  }

  /** Every row of the table shows a green status tag. */
  lemma ListedRowsAreGreen(containers: seq<Container>)
    ensures forall i :: 0 <= i < |RunningContainers(containers)| ==>
      StatusColor(RunningContainers(containers)[i].status) == "green"
  {
    forall i | 0 <= i < |RunningContainers(containers)|
      ensures StatusColor(RunningContainers(containers)[i].status) == "green"
    {
      FilterMembership(containers, IsRunning, RunningContainers(containers)[i]);
    }
  }

  /** `id.substring(0, 12)`. */
  function DisplayId(id: string): (shown: string)
    ensures |shown| == if |id| < 12 then |id| else 12
    ensures shown == id[..|shown|]
  {
    if |id| < 12 then id else id[..12]
  }

  /** The command copied from a row. */
  function CopyCommand(id: string): (cmd: string)
    ensures |cmd| == |id| + 21
    ensures cmd[..15] == "docker exec -it" && cmd[15] == ' ' && cmd[|cmd| - 5..] == " bash"
    ensures cmd[16..|cmd| - 5] == id
  {
    "docker exec -it " + id + " bash"
  }

  /** The full id, not the shortened one, goes into the command: different containers, different commands. */
  lemma CopyCommandInjective(a: string, b: string)
    requires CopyCommand(a) == CopyCommand(b)
    ensures a == b
  {
    assert a == CopyCommand(a)[16..|CopyCommand(a)| - 5];
  }
}
