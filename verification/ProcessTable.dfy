/**
 * What the process index of kernel/tracking.c means, independent of the tree:
 * the prefix of the slot array as a sequence of records, scanned linearly.
 */
module ProcessTable {
  import opened Options
  import opened Substring

  const MAX_TRACKED_PROCESSES: nat := 1024

  const PRIORITY_P0 := 0
  const PRIORITY_P1 := 1
  const PRIORITY_P2 := 2

  const AI_PATTERNS: seq<string> := [
    "python", "pytorch", "tensorflow", "onnx", "torch", "tf.", "onnxruntime", "inference",
    "model", "neural", "transformer", "llm", "langchain", "huggingface", "jupyter", "ipython"]

  const GAMING_PATTERNS: seq<string> := [
    "steam", "game", "wine", "proton", "dxvk", "vk", "opengl", "gl", "vulkan",
    "unity", "unreal", "source", "engine", "client", "server"]

  const INFERENCE_PATTERNS: seq<string> := ["inference", "predict", "query", "api"]

  /** The three counters uroam_get_process_memory fills in. */
  datatype Usage = Usage(memory: nat, rss: nat, swap: nat)

  /** What one visit of the scan sees of a task. numaNode is the kernel's int. */
  datatype Task = Task(pid: int, comm: string, usage: Usage, numaNode: int)

  /** A slot of the array without its embedded tree node. */
  datatype Record = Record(pid: int, comm: string, usage: Usage, priority: int, numaNode: int,
                           isAiWorkload: bool, isGaming: bool)

  /** The u8 field numa_node keeps the low eight bits. */
  function NodeByte(node: int): int { node % 256 }

  predicate IsAi(comm: string) { OccursAny(comm, AI_PATTERNS) }

  predicate IsGaming(comm: string) { OccursAny(comm, GAMING_PATTERNS) }

  function PriorityOf(comm: string): int {
    if IsAi(comm) then
      if OccursAny(comm, INFERENCE_PATTERNS) then PRIORITY_P0 else PRIORITY_P2
    else if IsGaming(comm) then PRIORITY_P1
    else PRIORITY_P2
  }

  function NewRecord(t: Task): Record {
    Record(t.pid, t.comm, t.usage, PriorityOf(t.comm), NodeByte(t.numaNode), IsAi(t.comm), IsGaming(t.comm))
  }

  /** An update of a known process leaves pid, priority and the two workload flags alone. */
  function Refreshed(r: Record, t: Task): Record {
    r.(comm := t.comm, usage := t.usage, numaNode := NodeByte(t.numaNode))
  }

  /** Linear scan for a pid: the first slot that holds it. */
  function Find(table: seq<Record>, pid: int): Option<nat>
  {
    FindFrom(table, pid, 0)
  }

  function FindFrom(table: seq<Record>, pid: int, k: nat): (r: Option<nat>)
    requires k <= |table|
    ensures r.Some? ==> k <= r.value < |table| && table[r.value].pid == pid
    ensures r.Some? ==> forall j :: k <= j < r.value ==> table[j].pid != pid
    ensures r.None? ==> forall j :: k <= j < |table| ==> table[j].pid != pid
    decreases |table| - k
  {
    if k == |table| then None
    else if table[k].pid == pid then Some(k)
    else FindFrom(table, pid, k + 1)
  }

  function Update(table: seq<Record>, t: Task): seq<Record> {
    match Find(table, t.pid)
    case Some(k) => table[k := Refreshed(table[k], t)]
    case None => if |table| < MAX_TRACKED_PROCESSES then table + [NewRecord(t)] else table
  }

  /** The table after a run of updates, oldest first. */
  function TableAfter(run: seq<Task>): seq<Record> {
    if run == [] then [] else Update(TableAfter(run[..|run| - 1]), run[|run| - 1])
  }

  function Pids(table: seq<Record>): (ps: seq<int>)
    ensures |ps| == |table| && forall k :: 0 <= k < |ps| ==> ps[k] == table[k].pid
  {
    seq(|table|, k requires 0 <= k < |table| => table[k].pid)
  }

  predicate DistinctPids(table: seq<Record>) {
    forall i, j :: 0 <= i < j < |table| ==> table[i].pid != table[j].pid
  }

  // ----- closed form over a whole run -----

  /** The pids of a run, each once, in the order of their first appearance. */
  function FirstAppearances(run: seq<Task>): (ps: seq<int>) {
    if run == [] then []
    else
      var before := FirstAppearances(run[..|run| - 1]);
      var pid := run[|run| - 1].pid;
      if pid in before then before else before + [pid]
  }

  function Capped(ps: seq<int>): seq<int> {
    if |ps| <= MAX_TRACKED_PROCESSES then ps else ps[..MAX_TRACKED_PROCESSES]
  }

  /** The earliest and the latest visit of a pid, as positions in the run. */
  predicate IsFirstVisit(run: seq<Task>, pid: int, i: int) {
    0 <= i < |run| && run[i].pid == pid && forall j :: 0 <= j < i ==> run[j].pid != pid
  }

  predicate IsLastVisit(run: seq<Task>, pid: int, i: int) {
    0 <= i < |run| && run[i].pid == pid && forall j :: i < j < |run| ==> run[j].pid != pid
  }

  /** The record a pid must have after the run: sticky fields from the first visit, the rest from the last. */
  ghost predicate Explains(run: seq<Task>, r: Record) {
    exists first, last :: ExplainedBy(run, r, first, last)
  }

  ghost predicate ExplainedBy(run: seq<Task>, r: Record, first: int, last: int) {
    && IsFirstVisit(run, r.pid, first)
    && IsLastVisit(run, r.pid, last)
    && r.isAiWorkload == IsAi(run[first].comm) && r.isGaming == IsGaming(run[first].comm)
    && r.priority == PriorityOf(run[first].comm)
    && r.comm == run[last].comm && r.usage == run[last].usage && r.numaNode == run[last].numaNode % 256
  }

  lemma FindInDistinct(table: seq<Record>, pid: int, k: nat)
    requires DistinctPids(table) && k < |table| && table[k].pid == pid
    ensures Find(table, pid) == Some(k)
  {
  }

  lemma {:induction false} FirstAppearancesAreTheVisited(run: seq<Task>)
    ensures forall p :: p in FirstAppearances(run) <==> exists i :: 0 <= i < |run| && run[i].pid == p
    ensures forall i, j :: 0 <= i < j < |FirstAppearances(run)| ==> FirstAppearances(run)[i] != FirstAppearances(run)[j]
  {
    if run != [] {
      var prefix, last := run[..|run| - 1], run[|run| - 1];
      FirstAppearancesAreTheVisited(prefix);
      var before := FirstAppearances(prefix);
      forall p
        ensures p in FirstAppearances(run) <==> exists i :: 0 <= i < |run| && run[i].pid == p
      {
        if p in FirstAppearances(run) {
          if p in before {
            var i :| 0 <= i < |prefix| && prefix[i].pid == p;
            assert run[i].pid == p;
          } else {
            assert run[|run| - 1].pid == p;
          }
        }
        if i :| 0 <= i < |run| && run[i].pid == p {
          if i < |prefix| {
            assert prefix[i].pid == p;
          }
        }
      }
    }
  }

  /** The tracked pids are exactly the first 1024 distinct ones, in order of first appearance. */
  lemma {:induction false} TrackedPids(run: seq<Task>)
    ensures Pids(TableAfter(run)) == Capped(FirstAppearances(run))
    ensures DistinctPids(TableAfter(run)) && |TableAfter(run)| <= MAX_TRACKED_PROCESSES
  {
    FirstAppearancesAreTheVisited(run);
    if run != [] {
      TrackedPids(run[..|run| - 1]);
      var before := FirstAppearances(run[..|run| - 1]);
      var table, t := TableAfter(run[..|run| - 1]), run[|run| - 1];
      match Find(table, t.pid) {
        case Some(k) =>
          assert t.pid == Pids(table)[k] && Pids(table)[k] == before[k];
        case None =>
          assert t.pid !in Pids(table);
          if |table| < MAX_TRACKED_PROCESSES {
            assert Pids(table) == before;
          }
      }
      assert Pids(TableAfter(run)) == Capped(FirstAppearances(run));
      forall i, j | 0 <= i < j < |TableAfter(run)|
        ensures TableAfter(run)[i].pid != TableAfter(run)[j].pid
      {
        assert Pids(TableAfter(run))[i] == FirstAppearances(run)[i];
        assert Pids(TableAfter(run))[j] == FirstAppearances(run)[j];
      }
    }
  }

  lemma ExplainsStep(run: seq<Task>, r: Record)
    requires run != [] && Explains(run[..|run| - 1], r)
    ensures Explains(run, if r.pid == run[|run| - 1].pid then Refreshed(r, run[|run| - 1]) else r)
  {
    var prefix, t := run[..|run| - 1], run[|run| - 1];
    var first, last :| ExplainedBy(prefix, r, first, last);
    assert run[first] == prefix[first] && run[last] == prefix[last];
    assert IsFirstVisit(run, r.pid, first);
    if r.pid == t.pid {
      assert ExplainedBy(run, Refreshed(r, t), first, |run| - 1);
    } else {
      assert ExplainedBy(run, r, first, last);
    }
  }

  /**
   * Every record is explained by the run: its pid, priority and workload flags were computed from the
   * first visit of that pid, its comm, usage and node from the latest one.
   */
  lemma {:induction false} TrackedRecords(run: seq<Task>)
    ensures forall k :: 0 <= k < |TableAfter(run)| ==> Explains(run, TableAfter(run)[k])
  {
    if run != [] {
      var prefix, t := run[..|run| - 1], run[|run| - 1];
      var table := TableAfter(prefix);
      TrackedRecords(prefix);
      TrackedPids(prefix);
      FirstAppearancesAreTheVisited(prefix);
      forall k | 0 <= k < |TableAfter(run)|
        ensures Explains(run, TableAfter(run)[k])
      {
        if k < |table| {
          ExplainsStep(run, table[k]);
          if table[k].pid == t.pid {
            FindInDistinct(table, t.pid, k);
          }
        } else {
          assert t.pid !in Pids(table) && Pids(table) == FirstAppearances(prefix);
          forall j | 0 <= j < |run| - 1
            ensures run[j].pid != t.pid
          {
            assert prefix[j].pid in FirstAppearances(prefix);
          }
          assert ExplainedBy(run, NewRecord(t), |run| - 1, |run| - 1);
        }
      }
    }
  }

  /**
   * The same for one slot, field by field: what came from the first visit of its pid, and what from
   * the latest.
   */
  lemma SlotFields(run: seq<Task>, k: nat) returns (first: nat, last: nat)
    requires k < |TableAfter(run)|
    ensures first <= last < |run| && run[first].pid == run[last].pid == TableAfter(run)[k].pid
    ensures forall j :: 0 <= j < first || last < j < |run| ==> run[j].pid != TableAfter(run)[k].pid
    ensures TableAfter(run)[k].isAiWorkload <==> OccursAny(run[first].comm, AI_PATTERNS)
    ensures TableAfter(run)[k].isGaming <==> OccursAny(run[first].comm, GAMING_PATTERNS)
    ensures TableAfter(run)[k].priority
            == if OccursAny(run[first].comm, AI_PATTERNS)
               then if OccursAny(run[first].comm, INFERENCE_PATTERNS) then 0 else 2
               else if OccursAny(run[first].comm, GAMING_PATTERNS) then 1 else 2
    ensures TableAfter(run)[k].comm == run[last].comm && TableAfter(run)[k].usage == run[last].usage
    ensures TableAfter(run)[k].numaNode == run[last].numaNode % 256
  {
    TrackedRecords(run);
    var r := TableAfter(run)[k];
    assert Explains(run, r);
    var i, j :| ExplainedBy(run, r, i, j);
    first, last := i, j;
  }

  /** Earlier slots belong to processes seen earlier. */
  lemma {:induction false} SlotsInVisitOrder(run: seq<Task>, i: nat, j: nat, a: nat, b: nat)
    requires i < j < |TableAfter(run)|
    requires IsFirstVisit(run, TableAfter(run)[i].pid, a) && IsFirstVisit(run, TableAfter(run)[j].pid, b)
    ensures a < b
  {
    var prefix, t := run[..|run| - 1], run[|run| - 1];
    var table := TableAfter(prefix);
    assert TableAfter(run)[i].pid == table[i].pid;
    var first, _ := SlotFields(prefix, i);
    assert prefix[first] == run[first] && a <= first;
    if j < |table| {
      var firstJ, _ := SlotFields(prefix, j);
      assert prefix[firstJ] == run[firstJ] && b <= firstJ;
      SlotsInVisitOrder(prefix, i, j, a, b);
    } else {
      TrackedPids(prefix);
      FirstAppearancesAreTheVisited(prefix);
      assert t.pid !in Pids(table) && Pids(table) == FirstAppearances(prefix);
      forall x | 0 <= x < |prefix|
        ensures run[x].pid != t.pid
      {
        assert prefix[x].pid in FirstAppearances(prefix);
      }
    }
  }

  /** What one visit does to the table, slot by slot. */
  lemma UpdateFields(table: seq<Record>, t: Task, k: nat)
    requires DistinctPids(table) && k < |Update(table, t)|
    ensures |table| <= |Update(table, t)| <= |table| + 1
    ensures |Update(table, t)| == |table|
            <==> |table| >= MAX_TRACKED_PROCESSES || exists j :: 0 <= j < |table| && table[j].pid == t.pid
    ensures k < |table| && table[k].pid == t.pid
            ==> Update(table, t)[k]
                == Record(t.pid, t.comm, t.usage, table[k].priority, t.numaNode % 256,
                          table[k].isAiWorkload, table[k].isGaming)
    ensures k < |table| && table[k].pid != t.pid ==> Update(table, t)[k] == table[k]
    ensures k == |table| ==> var r := Update(table, t)[k];
                             r.pid == t.pid && r.comm == t.comm && r.usage == t.usage && r.numaNode == t.numaNode % 256
  {
    if k < |table| && table[k].pid == t.pid {
      FindInDistinct(table, t.pid, k);
    }
  }

  predicate SameProcess(a: Record, b: Record) {
    a.pid == b.pid && a.priority == b.priority && a.isAiWorkload == b.isAiWorkload && a.isGaming == b.isGaming
  }

  /** A slot, once filled, keeps its pid, priority and workload flags for the rest of the run. */
  lemma {:induction false} SlotsAreStable(run: seq<Task>, more: seq<Task>)
    ensures |TableAfter(run)| <= |TableAfter(run + more)|
    ensures forall k :: 0 <= k < |TableAfter(run)| ==> SameProcess(TableAfter(run + more)[k], TableAfter(run)[k])
    decreases |more|
  {
    if more == [] {
      assert run + more == run;
    } else {
      assert (run + more)[..|run + more| - 1] == run + more[..|more| - 1];
      SlotsAreStable(run, more[..|more| - 1]);
    }
  }

  /** A process once found is found in the same slot after any further visits, and is the same process. */
  lemma LookupSurvives(run: seq<Task>, more: seq<Task>, pid: int)
    ensures var p := Find(TableAfter(run), pid);
            p.Some? ==> Find(TableAfter(run + more), pid) == p
                        && SameProcess(TableAfter(run + more)[p.value], TableAfter(run)[p.value])
  {
    SlotsAreStable(run, more);
    TrackedPids(run + more);
  }

  // ----- the numbers a scan walks through -----

  /**
   * What looking up each pid number gives during one scan, which asks for a number at most once: a
   * number in use may belong to a task or, as a mere group or session number, to none.
   */
  type PidSpace = map<nat, Option<Task>>

  /** All numbers from 1 up to n are in use. */
  predicate InUseUpTo(pids: PidSpace, n: nat) {
    n == 0 || (n in pids && InUseUpTo(pids, n - 1))
  }

  function NumbersFrom(pids: PidSpace, n: nat): set<nat> { set m | m in pids && m >= n }

  lemma AppendVisits(run: seq<Task>, a: seq<Task>, b: seq<Task>)
    ensures run + a + b == run + (a + b)
  {
  }

  lemma FewerNumbers(pids: PidSpace, n: nat)
    requires n in pids
    ensures NumbersFrom(pids, n + 1) < NumbersFrom(pids, n)
  {
    assert n in NumbersFrom(pids, n);
  }

  function TaskList(found: Option<Task>): seq<Task> { if found.Some? then [found.value] else [] }

  /** The tasks behind the numbers 1 to n, in order. */
  function TasksUpTo(pids: PidSpace, n: nat): seq<Task>
    requires InUseUpTo(pids, n)
  {
    if n == 0 then []
    else TasksUpTo(pids, n - 1) + TaskList(pids[n])
  }

  /** run ends with the tasks of the numbers 1 to n - 1, all of which are in use. */
  ghost predicate ScannedBelow(start: seq<Task>, run: seq<Task>, pids: PidSpace, n: nat) {
    n >= 1 && InUseUpTo(pids, n - 1) && run == start + TasksUpTo(pids, n - 1)
  }

  lemma ScanNext(start: seq<Task>, run: seq<Task>, pids: PidSpace, n: nat)
    requires ScannedBelow(start, run, pids, n) && n in pids
    ensures ScannedBelow(start, run + TaskList(pids[n]), pids, n + 1)
    ensures NumbersFrom(pids, n + 1) < NumbersFrom(pids, n)
  {
    AppendVisits(start, TasksUpTo(pids, n - 1), TaskList(pids[n]));
    FewerNumbers(pids, n);
  }

  predicate Numbered(pids: PidSpace) {
    forall n :: n in pids && pids[n].Some? ==> pids[n].value.pid == n
  }

  predicate IsTask(pids: PidSpace, n: nat) { 1 <= n && n in pids && pids[n].Some? }

  lemma {:induction false} TasksUpToMembers(pids: PidSpace, n: nat, k: nat)
    requires InUseUpTo(pids, n) && Numbered(pids) && IsTask(pids, k)
    ensures pids[k].value in TasksUpTo(pids, n) <==> k <= n
  {
    if n > 0 {
      TasksUpToMembers(pids, n - 1, k);
    }
  }

  lemma {:induction false} InUseBelow(pids: PidSpace, n: nat, k: nat)
    requires InUseUpTo(pids, n)
    ensures k <= n ==> InUseUpTo(pids, k)
    ensures 1 <= k <= n ==> k in pids
  {
    if 0 < n && k < n {
      InUseBelow(pids, n - 1, k);
    }
  }

  /** A scan that ended at a free number visited every task exactly if none has a free number below its own. */
  lemma ScanCoversIff(start: seq<Task>, run: seq<Task>, pids: PidSpace, end: nat)
    requires ScannedBelow(start, run, pids, end) && end !in pids && Numbered(pids)
    ensures |start| <= |run| && ((forall k :: IsTask(pids, k) ==> pids[k].value in run[|start|..])
                                 <==> (forall k :: IsTask(pids, k) ==> InUseUpTo(pids, k)))
  {
    assert run[|start|..] == TasksUpTo(pids, end - 1);
    forall k | IsTask(pids, k)
      ensures pids[k].value in run[|start|..] <==> InUseUpTo(pids, k)
    {
      TasksUpToMembers(pids, end - 1, k);
      InUseBelow(pids, end - 1, k);
      if InUseUpTo(pids, k) {
        InUseBelow(pids, k, end);
      }
    }
  }
}
