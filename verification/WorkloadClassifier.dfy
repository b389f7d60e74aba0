/** The process classifier of src/classification/mod.rs and the dispatch of src/optimization/mod.rs. */
module WorkloadClassifier {
  import opened Substring

  datatype Workload =
    | General | AiInference | AiTraining | Gaming | Compilation | Rendering | Interactive | Background | Idle

  datatype Priority = P0 | P1 | P2 | P3

  datatype ProcessInfo = ProcessInfo(pid: nat, name: string, rssKb: nat, swapKb: nat,
                                     workload: Workload, priority: Priority)

  /** A process directory as read and parsed; the two texts are given in lower case as well. */
  datatype Entry = Entry(pid: nat, comm: string, commLower: string, cmdlineLower: string, rssKb: nat, swapKb: nat)

  datatype Profile = IdleProfile | AiProfile | GamingProfile | CompilationProfile | BalancedProfile

  const AI_PROCESSES: seq<string> :=
    ["llama.cpp", "llama-server", "ollama", "ollama-server",
     "python", "python3", "torch", "tensorflow", "transformers", "onnxruntime"]
  const GAMING_PROCESSES: seq<string> :=
    ["steam", "steamwebhelper", "steam-runtime", "proton", "wine", "wine64", "gamescope", "gamemoded", "lutris"]
  const COMPILATION_PROCESSES: seq<string> :=
    ["gcc", "g++", "clang", "clang++", "rustc", "cargo", "make", "ninja", "cmake", "meson"]
  const INTERACTIVE_PROCESSES: seq<string> :=
    ["gnome-shell", "kwin", "Xorg", "X11", "sway", "hyprland", "weston", "kitty", "alacritty", "foot",
     "firefox", "chromium", "vscode", "code"]

  // ----- classification -----

  function Classify(name: string, cmdline: string): Workload {
    if OccursAny(name, AI_PROCESSES) || OccursAny(cmdline, AI_PROCESSES) then
      if Occurs(cmdline, "train") || Occurs(cmdline, "fit") then AiTraining else AiInference
    else if OccursAny(name, GAMING_PROCESSES) then Gaming
    else if OccursAny(name, COMPILATION_PROCESSES) then Compilation
    else if OccursAny(name, INTERACTIVE_PROCESSES) then Interactive
    else if "kworker" <= name || Occurs(name, "ksoftirqd") || Occurs(name, "rcu_") || name == "migration" then Background
    else General
  }

  function PriorityOf(w: Workload): Priority {
    match w
    case AiInference => P0
    case Interactive => P0
    case Gaming => P1
    case Compilation => P1
    case _ => P2
  }

  /** determine_priority */
  lemma PriorityByClass(w: Workload)
    ensures PriorityOf(w) == P0 <==> w == AiInference || w == Interactive
    ensures PriorityOf(w) == P1 <==> w == Gaming || w == Compilation
    ensures PriorityOf(w) != P3
  {
  }

  /** The class, by what occurs in the two texts. */
  method ClassifyProcess(name: string, cmdline: string) returns (w: Workload)
    ensures w == Classify(name, cmdline)
    ensures var ai := OccursAny(name, AI_PROCESSES) || OccursAny(cmdline, AI_PROCESSES);
            var training := Occurs(cmdline, "train") || Occurs(cmdline, "fit");
            var game, compiler := OccursAny(name, GAMING_PROCESSES), OccursAny(name, COMPILATION_PROCESSES);
            var desktop := OccursAny(name, INTERACTIVE_PROCESSES);
            var kernel := "kworker" <= name || Occurs(name, "ksoftirqd") || Occurs(name, "rcu_") || name == "migration";
            && (w == AiTraining <==> ai && training)
            && (w == AiInference <==> ai && !training)
            && (w == Gaming <==> !ai && game)
            && (w == Compilation <==> !ai && !game && compiler)
            && (w == Interactive <==> !ai && !game && !compiler && desktop)
            && (w == Background <==> !ai && !game && !compiler && !desktop && kernel)
            && (w == General <==> !ai && !game && !compiler && !desktop && !kernel)
  {
    for i := 0 to |AI_PROCESSES|
      invariant forall k :: 0 <= k < i ==> !Occurs(name, AI_PROCESSES[k]) && !Occurs(cmdline, AI_PROCESSES[k])
    {
      if Occurs(name, AI_PROCESSES[i]) || Occurs(cmdline, AI_PROCESSES[i]) {
        if Occurs(cmdline, "train") || Occurs(cmdline, "fit") {
          return AiTraining;
        }
        return AiInference;
      }
    }
    for i := 0 to |GAMING_PROCESSES|
      invariant forall k :: 0 <= k < i ==> !Occurs(name, GAMING_PROCESSES[k])
    {
      if Occurs(name, GAMING_PROCESSES[i]) {
        return Gaming;
      }
    }
    for i := 0 to |COMPILATION_PROCESSES|
      invariant forall k :: 0 <= k < i ==> !Occurs(name, COMPILATION_PROCESSES[k])
    {
      if Occurs(name, COMPILATION_PROCESSES[i]) {
        return Compilation;
      }
    }
    for i := 0 to |INTERACTIVE_PROCESSES|
      invariant forall k :: 0 <= k < i ==> !Occurs(name, INTERACTIVE_PROCESSES[k])
    {
      if Occurs(name, INTERACTIVE_PROCESSES[i]) {
        return Interactive;
      }
    }
    if "kworker" <= name || Occurs(name, "ksoftirqd") || Occurs(name, "rcu_") || name == "migration" {
      return Background;
    }
    return General;
  }

  /** Names are lower-cased before matching, so the patterns written with capitals can never match. */
  lemma CapitalPatternsNeverMatch(name: string)
    requires 'X' !in name
    ensures !Occurs(name, "Xorg") && !Occurs(name, "X11")
  {
    forall i | 0 <= i <= |name| - 4
      ensures !OccursAt(name, "Xorg", i)
    {
      assert name[i..i + 4][0] in name;
    }
    forall i | 0 <= i <= |name| - 3
      ensures !OccursAt(name, "X11", i)
    {
      assert name[i..i + 3][0] in name;
    }
  }

  // ----- counting -----

  function Count(ps: seq<ProcessInfo>, w: Workload): nat {
    if ps == [] then 0 else Count(ps[..|ps| - 1], w) + if ps[|ps| - 1].workload == w then 1 else 0
  }

  /** The table has an entry for exactly the workloads present, holding their number. */
  ghost predicate Counts(m: map<Workload, nat>, ps: seq<ProcessInfo>) {
    forall w :: (w in m <==> Count(ps, w) > 0) && (w in m ==> m[w] == Count(ps, w))
  }

  function Get(m: map<Workload, nat>, w: Workload): nat { if w in m then m[w] else 0 }

  lemma {:induction false} CountTotal(ps: seq<ProcessInfo>)
    ensures Count(ps, General) + Count(ps, AiInference) + Count(ps, AiTraining) + Count(ps, Gaming)
            + Count(ps, Compilation) + Count(ps, Rendering) + Count(ps, Interactive) + Count(ps, Background)
            + Count(ps, Idle) == |ps|
  {
    if ps != [] {
      CountTotal(ps[..|ps| - 1]);
    }
  }

  lemma {:induction false} CountMember(ps: seq<ProcessInfo>, p: ProcessInfo)
    requires p in ps
    ensures Count(ps, p.workload) > 0
  {
    if p != ps[|ps| - 1] {
      assert p in ps[..|ps| - 1];
      CountMember(ps[..|ps| - 1], p);
    }
  }

  function InfoOf(e: Entry): ProcessInfo {
    var w := Classify(e.commLower, e.cmdlineLower);
    ProcessInfo(e.pid, e.comm, e.rssKb, e.swapKb, w, PriorityOf(w))
  }

  function Listed(entries: seq<Entry>): seq<ProcessInfo> {
    if entries == [] then [] else Listed(entries[..|entries| - 1]) + [InfoOf(entries[|entries| - 1])]
  }

  lemma {:induction false} ListedAt(entries: seq<Entry>)
    ensures |Listed(entries)| == |entries| && forall i :: 0 <= i < |entries| ==> Listed(entries)[i] == InfoOf(entries[i])
  {
    if entries != [] {
      ListedAt(entries[..|entries| - 1]);
    }
  }

  /** A scan lists its entries in order, each with its own pid, name, memory and swap, and the class of its texts. */
  lemma ListedFields(entries: seq<Entry>, i: nat)
    requires i < |entries|
    ensures |Listed(entries)| == |entries|
    ensures var p, e := Listed(entries)[i], entries[i];
            && p.pid == e.pid && p.name == e.comm && p.rssKb == e.rssKb && p.swapKb == e.swapKb
            && p.workload == Classify(e.commLower, e.cmdlineLower)
            && (p.priority == P0 <==> p.workload == AiInference || p.workload == Interactive)
            && (p.priority == P1 <==> p.workload == Gaming || p.workload == Compilation)
            && p.priority != P3
  {
    ListedAt(entries);
  }

  lemma CountsNext(m: map<Workload, nat>, ps: seq<ProcessInfo>, p: ProcessInfo)
    requires Counts(m, ps)
    ensures Counts(m[p.workload := Get(m, p.workload) + 1], ps + [p])
  {
    assert (ps + [p])[..|ps|] == ps;
  }

  /** An order in which the hash map may be walked: exactly its keys, and repeating one would not matter. */
  ghost predicate WalkOrder(order: seq<Workload>, m: map<Workload, nat>) {
    forall w :: w in order <==> w in m
  }

  predicate High(p: ProcessInfo) { p.priority == P0 || p.priority == P1 }

  predicate Low(p: ProcessInfo) { p.priority == P2 || p.priority == P3 }

  function PidsWhere(ps: seq<ProcessInfo>, keep: ProcessInfo -> bool): seq<nat> {
    if ps == [] then []
    else
      var front, p := PidsWhere(ps[..|ps| - 1], keep), ps[|ps| - 1];
      if keep(p) then front + [p.pid] else front
  }

  /** No process is lost and none is in both lists. */
  lemma {:induction false} PidListsPartition(ps: seq<ProcessInfo>)
    ensures multiset(PidsWhere(ps, High)) + multiset(PidsWhere(ps, Low)) == multiset(PidsWhere(ps, _ => true))
    ensures |PidsWhere(ps, High)| + |PidsWhere(ps, Low)| == |ps|
  {
    if ps != [] {
      PidListsPartition(ps[..|ps| - 1]);
    }
  }

  /** The high list has the pids of the P0 and P1 processes, the low list those of the others. */
  lemma {:induction false} PidListsByPriority(ps: seq<ProcessInfo>, pid: nat)
    ensures pid in PidsWhere(ps, High) <==> exists p :: p in ps && p.pid == pid && (p.priority == P0 || p.priority == P1)
    ensures pid in PidsWhere(ps, Low) <==> exists p :: p in ps && p.pid == pid && (p.priority == P2 || p.priority == P3)
  {
    if ps != [] {
      var front, last := ps[..|ps| - 1], ps[|ps| - 1];
      PidListsByPriority(front, pid);
      assert ps == front + [last];
      assert forall p :: p in ps <==> p in front || p == last;
    }
  }

  // ----- dispatch -----

  function OwnProfile(w: Workload): Profile {
    match w
    case AiInference => AiProfile
    case AiTraining => AiProfile
    case Gaming => GamingProfile
    case Compilation => CompilationProfile
    case _ => BalancedProfile
  }

  /** Which of the four profiles of a system that is not idle. */
  lemma ProfileByClass(w: Workload)
    ensures OwnProfile(w) == AiProfile <==> w == AiInference || w == AiTraining
    ensures OwnProfile(w) == GamingProfile <==> w == Gaming
    ensures OwnProfile(w) == CompilationProfile <==> w == Compilation
    ensures OwnProfile(w) != IdleProfile
  {
  }

  /** What is_idle looks at. */
  predicate IdleSystem(memoryPercent: real, ps: seq<ProcessInfo>) {
    memoryPercent < 40.0 && Count(ps, Gaming) == 0 && Count(ps, AiInference) == 0 && Count(ps, Interactive) == 0
  }

  /** w is a possible answer of get_current_workload: a most frequent workload, or Idle for no process. */
  ghost predicate Dominant(ps: seq<ProcessInfo>, w: Workload) {
    if ps == [] then w == Idle else Count(ps, w) > 0 && forall v :: Count(ps, v) <= Count(ps, w)
  }

  /** The profile a pass applies for current workload w. */
  function Applied(memoryPercent: real, ps: seq<ProcessInfo>, w: Workload): Profile {
    if IdleSystem(memoryPercent, ps) then IdleProfile else OwnProfile(w)
  }

  predicate KeepsAwake(p: ProcessInfo) {
    p.workload == Gaming || p.workload == AiInference || p.workload == Interactive
  }

  lemma {:induction false} CountWitness(ps: seq<ProcessInfo>, w: Workload) returns (p: ProcessInfo)
    requires Count(ps, w) > 0
    ensures p in ps && p.workload == w
  {
    p := ps[|ps| - 1];
    if p.workload != w {
      p := CountWitness(ps[..|ps| - 1], w);
    }
  }

  /**
   * A workload, dominant or not, gets its own profile exactly if memory use has reached 40 percent or
   * some gaming, inference or interactive process is listed.
   */
  lemma OwnProfileIff(memoryPercent: real, ps: seq<ProcessInfo>, w: Workload)
    ensures Applied(memoryPercent, ps, w) == OwnProfile(w)
            <==> memoryPercent >= 40.0 || exists p :: p in ps && KeepsAwake(p)
  {
    if p :| p in ps && KeepsAwake(p) {
      CountMember(ps, p);
    } else if Count(ps, Gaming) > 0 {
      var p := CountWitness(ps, Gaming);
      assert KeepsAwake(p);
    } else if Count(ps, AiInference) > 0 {
      var p := CountWitness(ps, AiInference);
      assert KeepsAwake(p);
    } else if Count(ps, Interactive) > 0 {
      var p := CountWitness(ps, Interactive);
      assert KeepsAwake(p);
    }
  }

  /** Dominance itself secures the own profile exactly for the three workloads that keep the system awake. */
  lemma OwnProfileGuaranteed(w: Workload)
    ensures (forall memoryPercent, ps :: Dominant(ps, w) ==> Applied(memoryPercent, ps, w) == OwnProfile(w))
            <==> w == AiInference || w == Gaming || w == Interactive
  {
    if w != AiInference && w != Gaming && w != Interactive {
      var ps := [ProcessInfo(7, "process", 0, 0, w, PriorityOf(w))];
      OneProcess(ps);
      assert Dominant(ps, w) && Applied(10.0, ps, w) == IdleProfile;
    }
  }

  lemma OneProcess(ps: seq<ProcessInfo>)
    requires |ps| == 1
    ensures forall v :: Count(ps, v) == if v == ps[0].workload then 1 else 0
  {
    assert ps[..0] == [];
  }

  const TRAINING_SCRIPT := Entry(7, "python", "python", "python train.py", 0, 0)

  lemma TrainingScriptClass()
    ensures Classify("python", "python train.py") == AiTraining
  {
    assert OccursAt("python", AI_PROCESSES[4], 0);
    assert OccursAt("python train.py", "train", 7);
  }

  lemma OneEntry(e: Entry, w: Workload)
    requires Classify(e.commLower, e.cmdlineLower) == w
    ensures |Listed([e])| == 1 && Listed([e])[0].workload == w
  {
    ListedFields([e], 0);
  }

  lemma OneTraining(ps: seq<ProcessInfo>)
    requires |ps| == 1 && ps[0].workload == AiTraining
    ensures Dominant(ps, AiTraining) && Applied(10.0, ps, AiTraining) == IdleProfile
  {
    OneProcess(ps);
  }

  /** A machine on which nothing but a training script runs gets the idle profile. */
  lemma TrainingCanBeIdle()
    ensures Dominant(Listed([TRAINING_SCRIPT]), AiTraining)
    ensures Applied(10.0, Listed([TRAINING_SCRIPT]), AiTraining) == IdleProfile
  {
    TrainingScriptClass();
    OneEntry(TRAINING_SCRIPT, AiTraining);
    OneTraining(Listed([TRAINING_SCRIPT]));
  }

  /** The choice at the end of run_optimization_pass. */
  method Dispatch(workload: Workload, idle: bool) returns (profile: Profile)
    ensures profile == IdleProfile <==> idle
    ensures profile == AiProfile <==> !idle && (workload == AiInference || workload == AiTraining)
    ensures profile == GamingProfile <==> !idle && workload == Gaming
    ensures profile == CompilationProfile <==> !idle && workload == Compilation
  {
    if idle {
      profile := IdleProfile;
    } else {
      match workload {
        case AiInference => profile := AiProfile;
        case AiTraining => profile := AiProfile;
        case Gaming => profile := GamingProfile;
        case Compilation => profile := CompilationProfile;
        case _ => profile := BalancedProfile;
      }
    }
  }

  class Classifier {
    var memoryPercent: real
    var processes: seq<ProcessInfo>
    var workloadCounts: map<Workload, nat>

    ghost predicate Valid()
      reads this
    {
      Counts(workloadCounts, processes)
    }

    constructor ()
      ensures Valid() && processes == [] && memoryPercent == 0.0
    {
      memoryPercent, processes, workloadCounts := 0.0, [], map[];
    }

    method ScanProcesses(entries: seq<Entry>)
      modifies this`processes, this`workloadCounts
      ensures Valid() && processes == Listed(entries)
    {
      processes := [];
      workloadCounts := map[];
      for i := 0 to |entries|
        invariant Valid() && processes == Listed(entries[..i])
      {
        assert entries[..i + 1][..i] == entries[..i];
        var e := entries[i];
        var w := ClassifyProcess(e.commLower, e.cmdlineLower);
        var p := ProcessInfo(e.pid, e.comm, e.rssKb, e.swapKb, w, PriorityOf(w));
        CountsNext(workloadCounts, processes, p);
        processes := processes + [p];
        workloadCounts := workloadCounts[w := Get(workloadCounts, w) + 1];
      }
      assert entries[..|entries|] == entries;
    }

    /** order: the order in which the hash map happens to be walked. */
    method GetCurrentWorkload(order: seq<Workload>) returns (dominant: Workload)
      requires Valid() && WalkOrder(order, workloadCounts)
      ensures Dominant(processes, dominant)
      ensures processes == [] ==> dominant == Idle
      ensures forall v :: Count(processes, v) <= Count(processes, dominant)
    {
      var maxCount := 0;
      dominant := General;
      for i := 0 to |order|
        invariant maxCount > 0 ==> Count(processes, dominant) == maxCount
        invariant forall k :: 0 <= k < i ==> Count(processes, order[k]) <= maxCount
      {
        assert order[i] in workloadCounts;
        var count := workloadCounts[order[i]];
        if count > maxCount {
          maxCount := count;
          dominant := order[i];
        }
      }
      if processes != [] {
        var p := processes[0];
        CountMember(processes, p);
        assert p.workload in order;
      }
      if maxCount == 0 {
        dominant := Idle;
      }
      forall v
        ensures Count(processes, v) <= maxCount
      {
        if Count(processes, v) > 0 {
          assert v in order;
        }
      }
      NoneOfNothing(processes, dominant);
    }

    method IsIdle() returns (r: bool)
      requires Valid()
      ensures r == IdleSystem(memoryPercent, processes)
      ensures r <==> memoryPercent < 40.0 && forall p :: p in processes ==>
                       p.workload != Gaming && p.workload != AiInference && p.workload != Interactive
    {
      OwnProfileIff(memoryPercent, processes, General);
      assert forall w :: Get(workloadCounts, w) == Count(processes, w);
      return memoryPercent < 40.0
          && Get(workloadCounts, Gaming) == 0
          && Get(workloadCounts, AiInference) == 0
          && Get(workloadCounts, Interactive) == 0;
    }

    /** run_optimization_pass up to the choice of profile. order: as above, for the freshly counted map. */
    method RunPass(newPercent: real, entries: seq<Entry>, order: seq<Workload>)
      returns (profile: Profile, ghost current: Workload)
      requires forall w :: w in order <==> Count(Listed(entries), w) > 0
      modifies this
      ensures Valid() && processes == Listed(entries) && memoryPercent == newPercent
      ensures IdleSystem(newPercent, processes) <==> profile == IdleProfile
      ensures Dominant(processes, current) && profile == Applied(newPercent, processes, current)
      ensures profile != IdleProfile ==>
                && (profile == AiProfile <==> current == AiInference || current == AiTraining)
                && (profile == GamingProfile <==> current == Gaming)
                && (profile == CompilationProfile <==> current == Compilation)
      ensures profile == IdleProfile <==> newPercent < 40.0 && forall p :: p in processes ==>
                p.workload != Gaming && p.workload != AiInference && p.workload != Interactive
    {
      memoryPercent := newPercent;
      ScanProcesses(entries);
      var workload := GetCurrentWorkload(order);
      current := workload;
      var idle := IsIdle();
      profile := Dispatch(workload, idle);
    }
  }

  lemma NoneOfNothing(ps: seq<ProcessInfo>, w: Workload)
    ensures ps == [] ==> Count(ps, w) == 0
  {
  }
}
