/** One tick of daemon/main.go: a long chain of overwriting writes to sysfs, and what is left of it. */
module ControlLoop {
  import opened Options
  import opened ProcessClassifier

  /** The files the tick writes. */
  datatype Key =
    | Swappiness | PageCluster | VfsCachePressure | DropCaches | DirtyRatio | DirtyBackgroundRatio | MinFreeKbytes
    | KsmRun | KsmPagesToScan | KsmSleep | ThpEnabled | ThpDefrag
    | ZswapMaxPool | ZswapEnabled | ZswapCompressor
    | OomScoreAdj(pid: int)

  type Sysfs = map<Key, string>

  datatype SystemState = SystemState(usedPercent: real, processes: seq<ProcessInfo>, full10: real, some10: real)

  const SWAP_LIMIT := 1024 * 1024 * 500

  // ----- what a tick decides, key by key -----

  function Sum(ps: seq<ProcessInfo>, f: ProcessInfo -> nat): nat {
    if ps == [] then 0 else Sum(ps[..|ps| - 1], f) + f(ps[|ps| - 1])
  }

  function LowSwap(p: ProcessInfo): nat { if p.priority >= PRIORITY_P2 then p.swap else 0 }
  function HighSwap(p: ProcessInfo): nat { if p.priority >= PRIORITY_P2 then 0 else p.swap }
  function LowTotal(p: ProcessInfo): nat { if p.priority >= PRIORITY_P2 then p.rss + p.swap else 0 }
  function HighTotal(p: ProcessInfo): nat { if p.priority >= PRIORITY_P2 then 0 else p.rss + p.swap }
  function DefaultSwap(p: ProcessInfo): nat { if p.priority == PRIORITY_P2 then p.swap else 0 }

  function Ratio(part: nat, whole: nat): real {
    if whole > 0 then part as real / whole as real else 0.0
  }

  predicate IsAI(p: ProcessInfo) { p.workload == AIInference || p.workload == AITraining }

  predicate HasAI(st: SystemState) { exists p | p in st.processes :: IsAI(p) }

  predicate HasGaming(st: SystemState) { exists p | p in st.processes :: p.workload == Gaming }

  predicate Interactive(st: SystemState) { exists p | p in st.processes :: p.priority <= PRIORITY_P1 }

  predicate Idle(st: SystemState) {
    !Interactive(st) && st.usedPercent < 40.0 && st.full10 < 1.0 && st.some10 < 5.0
  }

  predicate Critical(st: SystemState) { st.full10 > 10.0 || st.usedPercent > 85.0 }

  predicate Strained(st: SystemState) { Critical(st) || st.some10 > 5.0 || st.usedPercent > 70.0 }

  /** swappiness and page-cluster by swap placement. */
  function SwapPolicy(st: SystemState): (string, string) {
    var low, high := Sum(st.processes, LowSwap), Sum(st.processes, HighSwap);
    if Ratio(high, Sum(st.processes, HighTotal)) > 0.15 then ("5", "0")
    else if Ratio(low, Sum(st.processes, LowTotal)) < 0.3 && low > SWAP_LIMIT then ("80", "3")
    else if st.usedPercent > 80.0 then ("20", "1")
    else ("40", "2")
  }

  function OomOf(p: ProcessInfo): Option<string> {
    if p.priority == PRIORITY_P0 then Some("-900")
    else if p.priority == PRIORITY_P1 then Some("-500")
    else if p.priority >= PRIORITY_P2 then Some("300")
    else None
  }

  /** The last process of the list with this pid that gets a score decides. */
  function LastOom(ps: seq<ProcessInfo>, pid: int): Option<string> {
    if ps == [] then None
    else
      var p := ps[|ps| - 1];
      if p.pid == pid && OomOf(p).Some? then OomOf(p) else LastOom(ps[..|ps| - 1], pid)
  }

  /** Everything about a state that a tick's global writes depend on. */
  datatype Facts = Facts(idle: bool, ai: bool, gaming: bool, critical: bool, strained: bool,
                         full: bool, stalled: bool, roomy: bool, defaultSwapped: bool,
                         swappiness: string, cluster: string)

  function FactsOf(st: SystemState): Facts {
    Facts(Idle(st), HasAI(st), HasGaming(st), Critical(st), Strained(st),
          st.usedPercent > 90.0, st.usedPercent > 80.0 && st.full10 > 5.0, st.usedPercent < 50.0,
          Sum(st.processes, DefaultSwap) > SWAP_LIMIT, SwapPolicy(st).0, SwapPolicy(st).1)
  }

  /**
   * The value a tick leaves under a key, None if it leaves the key alone. It depends on nothing but
   * the state: neither on earlier ticks nor on whether the system was idle before.
   */
  function Final(st: SystemState, k: Key): Option<string> {
    if k.OomScoreAdj? then LastOom(st.processes, k.pid) else FinalOf(FactsOf(st), k)
  }

  function FinalOf(f: Facts, k: Key): Option<string> {
    match k
    case Swappiness => Some(if f.idle then "90" else f.swappiness)
    case PageCluster => Some(f.cluster)
    case VfsCachePressure => Some(if f.idle then "50" else "100")
    case KsmRun =>
      Some(if f.idle || f.ai then "1" else if f.gaming then "0" else if f.strained then "1" else "0")
    case ZswapMaxPool => Some(if f.idle then "40" else if f.ai || f.gaming then "30" else "20")
    case ZswapCompressor => Some(if f.idle then "zstd" else "lz4")
    case KsmPagesToScan => if f.idle then Some("5000") else if f.ai || f.critical then Some("3000") else None
    case KsmSleep => if f.idle then Some("5") else if f.ai then Some("10") else None
    case ZswapEnabled => if f.idle then Some("Y") else None
    case ThpEnabled => if f.ai || f.gaming then Some("always") else None
    case ThpDefrag =>
      if f.idle then Some("always") else if f.ai then Some("defer+madvise")
      else if f.gaming then Some("always") else None
    case DirtyRatio => if f.ai then Some("30") else if f.gaming then Some("5") else None
    case DirtyBackgroundRatio => if f.ai then Some("10") else if f.gaming then Some("2") else None
    case MinFreeKbytes => if f.gaming then Some("65536") else None
    case DropCaches =>
      if f.idle then if f.defaultSwapped then Some("3") else None
      else if f.full then Some("3")
      else if f.stalled then Some("2")
      else None
    case OomScoreAdj(_) => None
  }

  // ----- stores -----

  function Lookup(s: Sysfs, k: Key): Option<string> {
    if k in s then Some(s[k]) else None
  }

  function Over(later: Option<string>, earlier: Option<string>): Option<string> {
    if later.Some? then later else earlier
  }

  /** s' is s with the writable ones of the effect's values put over it. */
  ghost predicate Wrote(s: Sysfs, s': Sysfs, writable: set<Key>, effect: Key -> Option<string>) {
    forall k :: Lookup(s', k) == if k in writable then Over(effect(k), Lookup(s, k)) else Lookup(s, k)
  }

  // ----- the writes of each part of a tick, over the values w tried before -----

  function PressureWrites(f: Facts, w: Sysfs): Sysfs {
    var w1 :=
      if f.critical then w[Swappiness := "5"][KsmRun := "1"][KsmPagesToScan := "3000"]
      else if f.strained then w[Swappiness := "20"][KsmRun := "1"]
      else if f.idle then w[KsmRun := "0"]
      else w[Swappiness := "60"][KsmRun := "0"];
    if f.ai || f.gaming then w1[ZswapMaxPool := "30"]
    else if f.idle then w1
    else w1[ZswapMaxPool := "20"]
  }

  function GamingWrites(w: Sysfs): Sysfs {
    w[Swappiness := "10"][DirtyRatio := "5"][DirtyBackgroundRatio := "2"][VfsCachePressure := "50"]
     [ThpEnabled := "always"][ThpDefrag := "always"][KsmRun := "0"][PageCluster := "0"][MinFreeKbytes := "65536"]
  }

  function AIWrites(w: Sysfs): Sysfs {
    w[ThpEnabled := "always"][ThpDefrag := "defer+madvise"][KsmRun := "1"][KsmPagesToScan := "3000"]
     [KsmSleep := "10"][PageCluster := "3"][DirtyRatio := "30"][DirtyBackgroundRatio := "10"]
     [VfsCachePressure := "100"]
  }

  function CacheWrites(f: Facts, w: Sysfs): Sysfs {
    if f.full then w[DropCaches := "3"]
    else if f.stalled then w[DropCaches := "2"]
    else if f.roomy && f.idle then w[VfsCachePressure := "25"]
    else w
  }

  function OomWrites(ps: seq<ProcessInfo>, w: Sysfs): Sysfs {
    if ps == [] then w
    else
      var front, p := ps[..|ps| - 1], ps[|ps| - 1];
      match OomOf(p)
      case Some(v) => OomWrites(front, w)[OomScoreAdj(p.pid) := v]
      case None => OomWrites(front, w)
  }

  function SwapWrites(f: Facts, ps: seq<ProcessInfo>, w: Sysfs): Sysfs {
    OomWrites(ps, w[Swappiness := f.swappiness][PageCluster := f.cluster])
  }

  function IdleWrites(f: Facts, w: Sysfs): Sysfs {
    if f.idle then
      var w1 := w[Swappiness := "90"][VfsCachePressure := "50"][KsmRun := "1"][KsmPagesToScan := "5000"]
                 [KsmSleep := "5"][ZswapMaxPool := "40"][ZswapEnabled := "Y"][ZswapCompressor := "zstd"];
      var w2 := if f.defaultSwapped then w1[DropCaches := "3"] else w1;
      w2[ThpDefrag := "always"]
    else
      w[VfsCachePressure := "100"][ZswapCompressor := "lz4"]
  }

  function WorkloadWrites(f: Facts, w: Sysfs): Sysfs {
    var w1 := PressureWrites(f, w);
    var w2 := if f.gaming then GamingWrites(w1) else w1;
    if f.ai then AIWrites(w2) else w2
  }

  function TickWrites(f: Facts, ps: seq<ProcessInfo>): Sysfs {
    IdleWrites(f, SwapWrites(f, ps, CacheWrites(f, WorkloadWrites(f, map[]))))
  }

  lemma {:induction false} OomWritesAt(ps: seq<ProcessInfo>, w: Sysfs, k: Key)
    ensures Lookup(OomWrites(ps, w), k) ==
            if k.OomScoreAdj? then Over(LastOom(ps, k.pid), Lookup(w, k)) else Lookup(w, k)
  {
    if ps != [] {
      OomWritesAt(ps[..|ps| - 1], w, k);
    }
  }

  /** Facts of one state exclude each other: an idle system is below the other thresholds. */
  predicate Consistent(f: Facts) {
    (f.idle ==> !f.full && !f.stalled) && (f.critical ==> f.strained)
  }

  /** The chain without the per-process scores. */
  function GlobalWrites(f: Facts): Sysfs {
    IdleWrites(f, CacheWrites(f, WorkloadWrites(f, map[]))[Swappiness := f.swappiness][PageCluster := f.cluster])
  }

  lemma GlobalWritesIdle(f: Facts, k: Key)
    requires Consistent(f) && f.idle && !k.OomScoreAdj?
    ensures Lookup(GlobalWrites(f), k) == FinalOf(f, k)
  {
  }

  lemma GlobalWritesAI(f: Facts, k: Key)
    requires Consistent(f) && !f.idle && f.ai && !k.OomScoreAdj?
    ensures Lookup(GlobalWrites(f), k) == FinalOf(f, k)
  {
  }

  lemma GlobalWritesGaming(f: Facts, k: Key)
    requires Consistent(f) && !f.idle && !f.ai && f.gaming && !k.OomScoreAdj?
    ensures Lookup(GlobalWrites(f), k) == FinalOf(f, k)
  {
  }

  lemma GlobalWritesPlain(f: Facts, k: Key)
    requires Consistent(f) && !f.idle && !f.ai && !f.gaming && !k.OomScoreAdj?
    ensures Lookup(GlobalWrites(f), k) == FinalOf(f, k)
  {
  }

  /** The idle part neither reads nor writes a score. */
  lemma IdleWritesLocal(f: Facts, w: Sysfs, w': Sysfs, k: Key)
    requires Lookup(w, k) == Lookup(w', k)
    ensures Lookup(IdleWrites(f, w), k) == Lookup(IdleWrites(f, w'), k)
    ensures k.OomScoreAdj? ==> Lookup(IdleWrites(f, w), k) == Lookup(w, k)
  {
  }

  lemma EarlyWritesLocal(f: Facts, k: Key)
    requires k.OomScoreAdj?
    ensures Lookup(CacheWrites(f, WorkloadWrites(f, map[])), k) == None
  {
  }

  /** What is left of the whole chain of writes under a key is the closed form. */
  lemma TickWritesAt(st: SystemState, k: Key)
    ensures Lookup(TickWrites(FactsOf(st), st.processes), k) == Final(st, k)
  {
    var f := FactsOf(st);
    var early := CacheWrites(f, WorkloadWrites(f, map[]));
    var w := early[Swappiness := f.swappiness][PageCluster := f.cluster];
    OomWritesAt(st.processes, w, k);
    if k.OomScoreAdj? {
      EarlyWritesLocal(f, k);
      IdleWritesLocal(f, OomWrites(st.processes, w), OomWrites(st.processes, w), k);
    } else {
      IdleWritesLocal(f, OomWrites(st.processes, w), w, k);
      if f.idle {
        GlobalWritesIdle(f, k);
      } else if f.ai {
        GlobalWritesAI(f, k);
      } else if f.gaming {
        GlobalWritesGaming(f, k);
      } else {
        GlobalWritesPlain(f, k);
      }
    }
  }

  // ----- the decisions in values -----

  predicate DistinctPids(ps: seq<ProcessInfo>) {
    forall i, j :: 0 <= i < j < |ps| ==> ps[i].pid != ps[j].pid
  }

  /** With distinct pids a process gets the score of its own priority, wherever it stands in the list. */
  lemma {:induction false} OomByPriority(ps: seq<ProcessInfo>, p: ProcessInfo)
    requires DistinctPids(ps) && p in ps
    ensures LastOom(ps, p.pid) == if p.priority == 0 then Some("-900") else if p.priority == 1 then Some("-500")
                                  else if p.priority >= 2 then Some("300") else None
  {
    var last, front := ps[|ps| - 1], ps[..|ps| - 1];
    if p in front {
      assert last.pid != p.pid;
      OomByPriority(front, p);
    } else {
      assert p == last;
      if OomOf(p).None? {
        NoOomOf(front, p.pid);
      }
    }
  }

  lemma {:induction false} NoOomOf(ps: seq<ProcessInfo>, pid: int)
    requires forall p :: p in ps ==> p.pid != pid
    ensures LastOom(ps, pid) == None
  {
    if ps != [] {
      NoOomOf(ps[..|ps| - 1], pid);
    }
  }

  /** With distinct pids: what the score writes leave under a process's key, and that they leave all other keys. */
  lemma OomWritesInValues(ps: seq<ProcessInfo>, w: Sysfs)
    ensures DistinctPids(ps) ==> forall p :: p in ps ==>
              Lookup(OomWrites(ps, w), OomScoreAdj(p.pid))
              == if p.priority == 0 then Some("-900") else if p.priority == 1 then Some("-500")
                 else if p.priority >= 2 then Some("300") else Lookup(w, OomScoreAdj(p.pid))
    ensures forall k: Key :: !k.OomScoreAdj? || (forall p :: p in ps ==> p.pid != k.pid)
                        ==> Lookup(OomWrites(ps, w), k) == Lookup(w, k)
  {
    if DistinctPids(ps) {
      forall p | p in ps
        ensures Lookup(OomWrites(ps, w), OomScoreAdj(p.pid))
                == if p.priority == 0 then Some("-900") else if p.priority == 1 then Some("-500")
                   else if p.priority >= 2 then Some("300") else Lookup(w, OomScoreAdj(p.pid))
      {
        OomByPriority(ps, p);
        OomWritesAt(ps, w, OomScoreAdj(p.pid));
      }
    }
    forall k: Key | !k.OomScoreAdj? || (forall p :: p in ps ==> p.pid != k.pid)
      ensures Lookup(OomWrites(ps, w), k) == Lookup(w, k)
    {
      OomWritesAt(ps, w, k);
      if k.OomScoreAdj? {
        NoOomOf(ps, k.pid);
      }
    }
  }

  /** The scores after a tick. */
  lemma ScoresWrote(s: Sysfs, s': Sysfs, writable: set<Key>, st: SystemState)
    requires Wrote(s, s', writable, k => Final(st, k))
    ensures DistinctPids(st.processes) ==> forall p :: p in st.processes && OomScoreAdj(p.pid) in writable ==>
              Lookup(s', OomScoreAdj(p.pid))
              == if p.priority == 0 then Some("-900") else if p.priority == 1 then Some("-500")
                 else if p.priority >= 2 then Some("300") else Lookup(s, OomScoreAdj(p.pid))
  {
    if DistinctPids(st.processes) {
      forall p | p in st.processes && OomScoreAdj(p.pid) in writable
        ensures Lookup(s', OomScoreAdj(p.pid))
                == if p.priority == 0 then Some("-900") else if p.priority == 1 then Some("-500")
                   else if p.priority >= 2 then Some("300") else Lookup(s, OomScoreAdj(p.pid))
      {
        OomByPriority(st.processes, p);
        assert Lookup(s', OomScoreAdj(p.pid)) == Over(Final(st, OomScoreAdj(p.pid)), Lookup(s, OomScoreAdj(p.pid)));
      }
    }
  }

  lemma {:induction false} SumOfParts(a: seq<ProcessInfo>, b: seq<ProcessInfo>, p: ProcessInfo, f: ProcessInfo -> nat)
    ensures Sum(a + b, f) == Sum(a, f) + Sum(b, f) && Sum([p], f) == f(p)
    decreases |b|
  {
    assert [p][..0] == [];
    if b == [] {
      assert a + b == a;
    } else {
      assert (a + b)[..|a + b| - 1] == a + b[..|b| - 1];
      SumOfParts(a, b[..|b| - 1], p, f);
    }
  }

  lemma {:induction false} SumSame(ps: seq<ProcessInfo>, f: ProcessInfo -> nat, g: ProcessInfo -> nat)
    requires forall p :: p in ps ==> f(p) == g(p)
    ensures Sum(ps, f) == Sum(ps, g)
  {
    if ps != [] {
      SumSame(ps[..|ps| - 1], f, g);
    }
  }

  /** The sums and ratios, without division: swappiness 5 when over 15 percent of what high priority uses is swapped. */
  lemma SwapPolicyInValues(st: SystemState)
    ensures var high := Sum(st.processes, (p: ProcessInfo) => if p.priority <= 1 then p.swap else 0);
            var highUse := Sum(st.processes, (p: ProcessInfo) => if p.priority <= 1 then p.rss + p.swap else 0);
            var low := Sum(st.processes, (p: ProcessInfo) => if p.priority >= 2 then p.swap else 0);
            var lowUse := Sum(st.processes, (p: ProcessInfo) => if p.priority >= 2 then p.rss + p.swap else 0);
            SwapPolicy(st) == if 100 * high > 15 * highUse then ("5", "0")
                              else if 100 * low < 30 * lowUse && low > 524288000 then ("80", "3")
                              else if st.usedPercent > 80.0 then ("20", "1")
                              else ("40", "2")
  {
    var ps := st.processes;
    SumSame(ps, HighSwap, (p: ProcessInfo) => if p.priority <= 1 then p.swap else 0);
    SumSame(ps, HighTotal, (p: ProcessInfo) => if p.priority <= 1 then p.rss + p.swap else 0);
    SumSame(ps, LowSwap, (p: ProcessInfo) => if p.priority >= 2 then p.swap else 0);
    SumSame(ps, LowTotal, (p: ProcessInfo) => if p.priority >= 2 then p.rss + p.swap else 0);
    SwapAtMostUse(ps);
    RatioAbove(Sum(ps, HighSwap), Sum(ps, HighTotal), 15);
    RatioBelow(Sum(ps, LowSwap), Sum(ps, LowTotal), 30);
  }

  /** Every condition a tick branches on, spelled out. */
  lemma FactsInValues(st: SystemState)
    ensures FactsOf(st).idle <==> (forall p :: p in st.processes ==> p.priority > 1)
                                  && st.usedPercent < 40.0 && st.full10 < 1.0 && st.some10 < 5.0
    ensures FactsOf(st).ai <==> exists p :: p in st.processes && (p.workload == AIInference || p.workload == AITraining)
    ensures FactsOf(st).gaming <==> exists p :: p in st.processes && p.workload == Gaming
    ensures FactsOf(st).critical <==> st.full10 > 10.0 || st.usedPercent > 85.0
    ensures FactsOf(st).strained <==> st.full10 > 10.0 || st.usedPercent > 70.0 || st.some10 > 5.0
    ensures FactsOf(st).full <==> st.usedPercent > 90.0
    ensures FactsOf(st).stalled <==> st.usedPercent > 80.0 && st.full10 > 5.0
    ensures FactsOf(st).defaultSwapped
            <==> Sum(st.processes, (p: ProcessInfo) => if p.priority == 2 then p.swap else 0) > 524288000
    ensures (FactsOf(st).swappiness, FactsOf(st).cluster) == SwapPolicy(st)
  {
    SumSame(st.processes, DefaultSwap, (p: ProcessInfo) => if p.priority == 2 then p.swap else 0);
  }

  lemma IdleTick(f: Facts)
    requires f.idle
    ensures FinalOf(f, Swappiness) == Some("90") && FinalOf(f, PageCluster) == Some(f.cluster)
    ensures FinalOf(f, VfsCachePressure) == Some("50") && FinalOf(f, KsmRun) == Some("1")
    ensures FinalOf(f, KsmPagesToScan) == Some("5000") && FinalOf(f, KsmSleep) == Some("5")
    ensures FinalOf(f, ZswapMaxPool) == Some("40") && FinalOf(f, ZswapEnabled) == Some("Y")
    ensures FinalOf(f, ZswapCompressor) == Some("zstd") && FinalOf(f, ThpDefrag) == Some("always")
    ensures FinalOf(f, DropCaches) == if f.defaultSwapped then Some("3") else None
  {
  }

  lemma BusyTick(f: Facts)
    requires !f.idle
    ensures FinalOf(f, Swappiness) == Some(f.swappiness) && FinalOf(f, PageCluster) == Some(f.cluster)
    ensures FinalOf(f, VfsCachePressure) == Some("100") && FinalOf(f, ZswapCompressor) == Some("lz4")
    ensures FinalOf(f, ZswapEnabled) == None
    ensures FinalOf(f, DropCaches) == if f.full then Some("3") else if f.stalled then Some("2") else None
  {
  }

  lemma AITick(f: Facts)
    requires f.ai
    ensures FinalOf(f, KsmRun) == Some("1") && FinalOf(f, ThpEnabled) == Some("always")
    ensures FinalOf(f, DirtyRatio) == Some("30") && FinalOf(f, DirtyBackgroundRatio) == Some("10")
    ensures FinalOf(f, MinFreeKbytes) == if f.gaming then Some("65536") else None
    ensures !f.idle ==> FinalOf(f, KsmPagesToScan) == Some("3000") && FinalOf(f, KsmSleep) == Some("10")
                        && FinalOf(f, ZswapMaxPool) == Some("30") && FinalOf(f, ThpDefrag) == Some("defer+madvise")
  {
  }

  lemma GamingTick(f: Facts)
    requires f.gaming && !f.ai
    ensures FinalOf(f, ThpEnabled) == Some("always") && FinalOf(f, ThpDefrag) == Some("always")
    ensures FinalOf(f, DirtyRatio) == Some("5") && FinalOf(f, DirtyBackgroundRatio) == Some("2")
    ensures FinalOf(f, MinFreeKbytes) == Some("65536")
    ensures !f.idle ==> FinalOf(f, KsmRun) == Some("0") && FinalOf(f, ZswapMaxPool) == Some("30")
                        && FinalOf(f, KsmSleep) == None
                        && FinalOf(f, KsmPagesToScan) == if f.critical then Some("3000") else None
  {
  }

  lemma PlainTick(f: Facts)
    requires !f.gaming && !f.ai
    ensures FinalOf(f, ThpEnabled) == FinalOf(f, MinFreeKbytes) == FinalOf(f, DirtyRatio) == None
    ensures FinalOf(f, DirtyBackgroundRatio) == None
    ensures !f.idle ==> FinalOf(f, KsmRun) == Some(if f.strained then "1" else "0")
                        && FinalOf(f, ZswapMaxPool) == Some("20")
                        && FinalOf(f, KsmSleep) == FinalOf(f, ThpDefrag) == None
                        && FinalOf(f, KsmPagesToScan) == if f.critical then Some("3000") else None
  {
  }

  lemma {:induction false} SwapAtMostUse(ps: seq<ProcessInfo>)
    ensures Sum(ps, HighSwap) <= Sum(ps, HighTotal) && Sum(ps, LowSwap) <= Sum(ps, LowTotal)
  {
    if ps != [] {
      SwapAtMostUse(ps[..|ps| - 1]);
    }
  }

  lemma RatioAbove(part: nat, whole: nat, percent: nat)
    requires part <= whole
    ensures Ratio(part, whole) > percent as real / 100.0 <==> 100 * part > percent * whole
  {
    if whole > 0 {
      Scaled(part, whole, percent);
    }
  }

  lemma RatioBelow(part: nat, whole: nat, percent: nat)
    requires part <= whole
    ensures part > 0 ==> (Ratio(part, whole) < percent as real / 100.0 <==> 100 * part < percent * whole)
  {
    if whole > 0 {
      Scaled(part, whole, percent);
    }
  }

  lemma Scaled(part: nat, whole: nat, percent: nat)
    requires whole > 0
    ensures part as real / whole as real > percent as real / 100.0 <==> 100 * part > percent * whole
    ensures part as real / whole as real < percent as real / 100.0 <==> 100 * part < percent * whole
  {
    var r, w, c := part as real / whole as real, whole as real, percent as real / 100.0;
    assert r * w == part as real;
    assert (100 * part) as real == 100.0 * (r * w) && (percent * whole) as real == 100.0 * (c * w);
    assert r > c <==> r * w > c * w;
    assert r < c <==> r * w < c * w;
  }

  /** s' is s with the writable ones of the values in w put over it. */
  ghost predicate Pending(s: Sysfs, s': Sysfs, writable: set<Key>, w: Sysfs) {
    forall k {:trigger Lookup(s', k)} ::
      Lookup(s', k) == if k in writable then Over(Lookup(w, k), Lookup(s, k)) else Lookup(s, k)
  }

  lemma PendingNext(s: Sysfs, s': Sysfs, writable: set<Key>, w: Sysfs, k: Key, v: string)
    requires Pending(s, s', writable, w)
    ensures Pending(s, if k in writable then s'[k := v] else s', writable, w[k := v])
  {
    var s'' := if k in writable then s'[k := v] else s';
    forall j
      ensures Lookup(s'', j) == if j in writable then Over(Lookup(w[k := v], j), Lookup(s, j)) else Lookup(s, j)
    {
      assert Lookup(s', j) == if j in writable then Over(Lookup(w, j), Lookup(s, j)) else Lookup(s, j);
    }
  }

  class Daemon {
    /** The paths that can be opened for writing; a write to any other path is logged and dropped. */
    const writable: set<Key>
    var sysfs: Sysfs
    var isIdle: bool
    /** The store when the current tick began, and the values the tick has tried to write since. */
    ghost var base: Sysfs
    ghost var writes: Sysfs

    ghost predicate Valid()
      reads this
    {
      Pending(base, sysfs, writable, writes)
    }

    constructor (writable: set<Key>, sysfs: Sysfs)
      ensures this.writable == writable && this.sysfs == sysfs && !isIdle && Valid()
    {
      this.writable, this.sysfs, isIdle := writable, sysfs, false;
      base, writes := sysfs, map[];
    }

    /** No caller looks at the error result. */
    method WriteSysfs(k: Key, value: string)
      requires Valid()
      modifies this`sysfs, this`writes
      ensures Valid() && writes == old(writes)[k := value]
      ensures sysfs == if k in writable then old(sysfs)[k := value] else old(sysfs)
    {
      PendingNext(base, sysfs, writable, writes, k, value);
      if k in writable {
        sysfs := sysfs[k := value];
      }
      writes := writes[k := value];
    }

    method DetectIdle(st: SystemState) returns (idle: bool)
      ensures idle == Idle(st)
      ensures idle <==> (forall p :: p in st.processes ==> p.priority > 1)
                        && st.usedPercent < 40.0 && st.full10 < 1.0 && st.some10 < 5.0
    {
      var interactive := 0;
      for i := 0 to |st.processes|
        invariant interactive >= 0
        invariant interactive == 0 <==> forall j :: 0 <= j < i ==> st.processes[j].priority > PRIORITY_P1
      {
        if st.processes[i].priority <= PRIORITY_P1 {
          interactive := interactive + 1;
        }
      }
      return interactive == 0 && st.usedPercent < 40.0 && st.full10 < 1.0 && st.some10 < 5.0;
    }

    method ApplyGaming()
      requires Valid()
      modifies this`sysfs, this`writes
      ensures Valid() && writes == GamingWrites(old(writes))
      ensures writes == old(writes)[Swappiness := "10"][DirtyRatio := "5"][DirtyBackgroundRatio := "2"]
                        [VfsCachePressure := "50"][ThpEnabled := "always"][ThpDefrag := "always"]
                        [KsmRun := "0"][PageCluster := "0"][MinFreeKbytes := "65536"]
    {
      WriteSysfs(Swappiness, "10");
      WriteSysfs(DirtyRatio, "5");
      WriteSysfs(DirtyBackgroundRatio, "2");
      WriteSysfs(VfsCachePressure, "50");
      WriteSysfs(ThpEnabled, "always");
      WriteSysfs(ThpDefrag, "always");
      WriteSysfs(KsmRun, "0");
      WriteSysfs(PageCluster, "0");
      WriteSysfs(MinFreeKbytes, "65536");
    }

    method ApplyAI()
      requires Valid()
      modifies this`sysfs, this`writes
      ensures Valid() && writes == AIWrites(old(writes))
      ensures writes == old(writes)[ThpEnabled := "always"][ThpDefrag := "defer+madvise"][KsmRun := "1"]
                        [KsmPagesToScan := "3000"][KsmSleep := "10"][PageCluster := "3"][DirtyRatio := "30"]
                        [DirtyBackgroundRatio := "10"][VfsCachePressure := "100"]
    {
      WriteSysfs(ThpEnabled, "always");
      WriteSysfs(ThpDefrag, "defer+madvise");
      WriteSysfs(KsmRun, "1");
      WriteSysfs(KsmPagesToScan, "3000");
      WriteSysfs(KsmSleep, "10");
      WriteSysfs(PageCluster, "3");
      WriteSysfs(DirtyRatio, "30");
      WriteSysfs(DirtyBackgroundRatio, "10");
      WriteSysfs(VfsCachePressure, "100");
    }

    method ApplyCache(st: SystemState)
      requires Valid() && isIdle == Idle(st)
      modifies this`sysfs, this`writes
      ensures Valid() && writes == CacheWrites(FactsOf(st), old(writes))
      ensures writes == if st.usedPercent > 90.0 then old(writes)[DropCaches := "3"]
                        else if st.usedPercent > 80.0 && st.full10 > 5.0 then old(writes)[DropCaches := "2"]
                        else if st.usedPercent < 50.0 && isIdle then old(writes)[VfsCachePressure := "25"]
                        else old(writes)
    {
      if st.usedPercent > 90.0 {
        WriteSysfs(DropCaches, "3");
      } else if st.usedPercent > 80.0 && st.full10 > 5.0 {
        WriteSysfs(DropCaches, "2");
      } else if st.usedPercent < 50.0 && isIdle {
        WriteSysfs(VfsCachePressure, "25");
      }
    }

    method ApplySwap(st: SystemState)
      requires Valid()
      modifies this`sysfs, this`writes
      ensures Valid() && writes == SwapWrites(FactsOf(st), st.processes, old(writes))
      ensures Lookup(writes, Swappiness) == Some(SwapPolicy(st).0)
      ensures Lookup(writes, PageCluster) == Some(SwapPolicy(st).1)
    {
      OomWritesInValues(st.processes, writes[Swappiness := SwapPolicy(st).0][PageCluster := SwapPolicy(st).1]);
      var lowSwap, highSwap, highTotal, lowTotal := 0, 0, 0, 0;
      for i := 0 to |st.processes|
        invariant lowSwap == Sum(st.processes[..i], LowSwap) && lowTotal == Sum(st.processes[..i], LowTotal)
        invariant highSwap == Sum(st.processes[..i], HighSwap) && highTotal == Sum(st.processes[..i], HighTotal)
      {
        assert st.processes[..i + 1][..i] == st.processes[..i];
        var p := st.processes[i];
        if p.priority >= PRIORITY_P2 {
          lowSwap := lowSwap + p.swap;
          lowTotal := lowTotal + (p.rss + p.swap);
        } else {
          highSwap := highSwap + p.swap;
          highTotal := highTotal + (p.rss + p.swap);
        }
      }
      assert st.processes[..|st.processes|] == st.processes;
      var highRatio, lowRatio := Ratio(highSwap, highTotal), Ratio(lowSwap, lowTotal);
      if highRatio > 0.15 {
        WriteSysfs(Swappiness, "5");
        WriteSysfs(PageCluster, "0");
      } else if lowRatio < 0.3 && lowSwap > SWAP_LIMIT {
        WriteSysfs(Swappiness, "80");
        WriteSysfs(PageCluster, "3");
      } else if st.usedPercent > 80.0 {
        WriteSysfs(Swappiness, "20");
        WriteSysfs(PageCluster, "1");
      } else {
        WriteSysfs(Swappiness, "40");
        WriteSysfs(PageCluster, "2");
      }
      ProtectHighPriority(st);
    }

    method ProtectHighPriority(st: SystemState)
      requires Valid()
      modifies this`sysfs, this`writes
      ensures Valid() && writes == OomWrites(st.processes, old(writes))
      ensures DistinctPids(st.processes) ==> forall p :: p in st.processes ==>
                Lookup(writes, OomScoreAdj(p.pid))
                == if p.priority == 0 then Some("-900") else if p.priority == 1 then Some("-500")
                   else if p.priority >= 2 then Some("300") else old(Lookup(writes, OomScoreAdj(p.pid)))
    {
      OomWritesInValues(st.processes, writes);
      for i := 0 to |st.processes|
        invariant Valid() && writes == OomWrites(st.processes[..i], old(writes))
      {
        assert st.processes[..i + 1][..i] == st.processes[..i];
        var p := st.processes[i];
        if p.priority <= PRIORITY_P1 {
          if p.priority == PRIORITY_P0 {
            WriteSysfs(OomScoreAdj(p.pid), "-900");
          } else if p.priority == PRIORITY_P1 {
            WriteSysfs(OomScoreAdj(p.pid), "-500");
          }
        } else if p.priority >= PRIORITY_P2 {
          WriteSysfs(OomScoreAdj(p.pid), "300");
        }
      }
      assert st.processes[..|st.processes|] == st.processes;
    }

    method ApplyIdle(st: SystemState)
      requires Valid() && isIdle == Idle(st)
      modifies this`sysfs, this`writes
      ensures Valid() && writes == IdleWrites(FactsOf(st), old(writes))
      ensures isIdle ==>
                var w := old(writes)[Swappiness := "90"][VfsCachePressure := "50"][KsmRun := "1"]
                         [KsmPagesToScan := "5000"][KsmSleep := "5"][ZswapMaxPool := "40"]
                         [ZswapEnabled := "Y"][ZswapCompressor := "zstd"];
                var swapped := Sum(st.processes, (p: ProcessInfo) => if p.priority == 2 then p.swap else 0);
                writes == (if swapped > 524288000 then w[DropCaches := "3"] else w)[ThpDefrag := "always"]
      ensures !isIdle ==> writes == old(writes)[VfsCachePressure := "100"][ZswapCompressor := "lz4"]
    {
      SumSame(st.processes, DefaultSwap, (p: ProcessInfo) => if p.priority == 2 then p.swap else 0);
      if isIdle {
        WriteSysfs(Swappiness, "90");
        WriteSysfs(VfsCachePressure, "50");
        WriteSysfs(KsmRun, "1");
        WriteSysfs(KsmPagesToScan, "5000");
        WriteSysfs(KsmSleep, "5");
        WriteSysfs(ZswapMaxPool, "40");
        WriteSysfs(ZswapEnabled, "Y");
        WriteSysfs(ZswapCompressor, "zstd");
        var swapUsed := 0;
        for i := 0 to |st.processes|
          invariant swapUsed == Sum(st.processes[..i], DefaultSwap)
        {
          assert st.processes[..i + 1][..i] == st.processes[..i];
          var p := st.processes[i];
          if p.priority == PRIORITY_P2 && p.swap > 0 {
            swapUsed := swapUsed + p.swap;
          }
        }
        assert st.processes[..|st.processes|] == st.processes;
        if swapUsed > SWAP_LIMIT {
          WriteSysfs(DropCaches, "3");
        }
        WriteSysfs(ThpDefrag, "always");
      } else {
        WriteSysfs(VfsCachePressure, "100");
        WriteSysfs(ZswapCompressor, "lz4");
      }
    }

    /** The opening block: pressure levels, then the zswap pool by what is running. */
    method ApplyPressure(st: SystemState) returns (hasAI: bool, hasGaming: bool)
      requires Valid() && isIdle == Idle(st)
      modifies this`sysfs, this`writes
      ensures hasAI == HasAI(st) && hasGaming == HasGaming(st)
      ensures Valid() && writes == PressureWrites(FactsOf(st), old(writes))
      ensures hasAI <==> exists p :: p in st.processes && (p.workload == AIInference || p.workload == AITraining)
      ensures hasGaming <==> exists p :: p in st.processes && p.workload == Gaming
      ensures var w := if st.full10 > 10.0 || st.usedPercent > 85.0
                       then old(writes)[Swappiness := "5"][KsmRun := "1"][KsmPagesToScan := "3000"]
                       else if st.some10 > 5.0 || st.usedPercent > 70.0
                       then old(writes)[Swappiness := "20"][KsmRun := "1"]
                       else if isIdle then old(writes)[KsmRun := "0"]
                       else old(writes)[Swappiness := "60"][KsmRun := "0"];
              writes == if hasAI || hasGaming then w[ZswapMaxPool := "30"]
                        else if isIdle then w else w[ZswapMaxPool := "20"]
    {
      if st.full10 > 10.0 || st.usedPercent > 85.0 {
        WriteSysfs(Swappiness, "5");
        WriteSysfs(KsmRun, "1");
        WriteSysfs(KsmPagesToScan, "3000");
      } else if st.some10 > 5.0 || st.usedPercent > 70.0 {
        WriteSysfs(Swappiness, "20");
        WriteSysfs(KsmRun, "1");
      } else {
        if !isIdle {
          WriteSysfs(Swappiness, "60");
        }
        WriteSysfs(KsmRun, "0");
      }
      hasAI, hasGaming := false, false;
      for i := 0 to |st.processes|
        invariant hasAI <==> exists j :: 0 <= j < i && IsAI(st.processes[j])
        invariant hasGaming <==> exists j :: 0 <= j < i && st.processes[j].workload == Gaming
      {
        match st.processes[i].workload {
          case AIInference => hasAI := true;
          case AITraining => hasAI := true;
          case Gaming => hasGaming := true;
          case _ =>
        }
      }
      if hasAI || hasGaming {
        WriteSysfs(ZswapMaxPool, "30");
      } else if !isIdle {
        WriteSysfs(ZswapMaxPool, "20");
      }
    }

    /** applyOptimizations */
    method Tick(st: SystemState)
      requires Valid()
      modifies this
      ensures Valid() && isIdle == Idle(st)
      ensures Wrote(old(sysfs), sysfs, writable, k => Final(st, k))
      ensures DistinctPids(st.processes) ==> forall p :: p in st.processes && OomScoreAdj(p.pid) in writable ==>
                Lookup(sysfs, OomScoreAdj(p.pid))
                == if p.priority == 0 then Some("-900") else if p.priority == 1 then Some("-500")
                   else if p.priority >= 2 then Some("300") else old(Lookup(sysfs, OomScoreAdj(p.pid)))
    {
      base, writes := sysfs, map[];
      isIdle := DetectIdle(st);
      var hasAI, hasGaming := ApplyPressure(st);
      if hasGaming {
        ApplyGaming();
      }
      if hasAI {
        ApplyAI();
      }
      ApplyCache(st);
      ApplySwap(st);
      ApplyIdle(st);
      forall k
        ensures Lookup(writes, k) == Final(st, k)
      {
        TickWritesAt(st, k);
      }
      ScoresWrote(old(sysfs), sysfs, writable, st);
    }
  }

  // ----- a tick depends on the state alone -----

  /** Keys every tick writes. */
  predicate AlwaysWritten(k: Key) {
    k == Swappiness || k == PageCluster || k == VfsCachePressure || k == KsmRun || k == ZswapMaxPool
    || k == ZswapCompressor
  }

  /** Whatever happened before, after a tick these keys hold the closed form of its state. */
  lemma TickForgetsHistory(s: Sysfs, s': Sysfs, writable: set<Key>, st: SystemState, k: Key)
    requires Wrote(s, s', writable, k => Final(st, k))
    ensures AlwaysWritten(k) && k in writable ==> Final(st, k).Some? && Lookup(s', k) == Final(st, k)
    ensures Final(st, k) == None || k !in writable ==> Lookup(s', k) == Lookup(s, k)
  {
    assert Lookup(s', k) == if k in writable then Over(Final(st, k), Lookup(s, k)) else Lookup(s, k);
  }

  lemma SameLookups(s: Sysfs, s': Sysfs)
    requires forall k :: Lookup(s, k) == Lookup(s', k)
    ensures s == s'
  {
    forall k
      ensures k in s <==> k in s'
      ensures k in s ==> s[k] == s'[k]
    {
      assert Lookup(s, k) == Lookup(s', k);
    }
  }

  /** A second tick on the same state changes nothing. */
  lemma TickTwice(s: Sysfs, s': Sysfs, s'': Sysfs, writable: set<Key>, st: SystemState)
    requires Wrote(s, s', writable, k => Final(st, k)) && Wrote(s', s'', writable, k => Final(st, k))
    ensures s'' == s'
  {
    forall k
      ensures Lookup(s'', k) == Lookup(s', k)
    {
      assert Lookup(s', k) == if k in writable then Over(Final(st, k), Lookup(s, k)) else Lookup(s, k);
      assert Lookup(s'', k) == if k in writable then Over(Final(st, k), Lookup(s', k)) else Lookup(s', k);
    }
    SameLookups(s', s'');
  }

  /** A run of ticks: ss[i] is the store before tick i on states[i]. */
  ghost predicate Ticks(ss: seq<Sysfs>, states: seq<SystemState>, writable: set<Key>) {
    |ss| == |states| + 1 &&
    forall i :: 0 <= i < |states| ==> Wrote(ss[i], ss[i + 1], writable, k => Final(states[i], k))
  }

  /** The last tick that decided about the key, or the initial store. */
  function LastDecision(states: seq<SystemState>, s: Sysfs, k: Key): Option<string> {
    if states == [] then Lookup(s, k)
    else Over(Final(states[|states| - 1], k), LastDecision(states[..|states| - 1], s, k))
  }

  /** After any run every key holds what the last tick that writes it decided. */
  lemma {:induction false} RunKeepsLastDecision(ss: seq<Sysfs>, states: seq<SystemState>, writable: set<Key>, k: Key)
    requires Ticks(ss, states, writable)
    ensures Lookup(ss[|states|], k) == if k in writable then LastDecision(states, ss[0], k) else Lookup(ss[0], k)
  {
    if states != [] {
      var n := |states| - 1;
      RunKeepsLastDecision(ss[..n + 1], states[..n], writable, k);
      assert Wrote(ss[n], ss[n + 1], writable, k => Final(states[n], k));
      TickForgetsHistory(ss[n], ss[n + 1], writable, states[n], k);
    }
  }

  // ----- daemons with different pasts -----

  /**
   * Two daemons with any stores and idle flags see the same state. Under a key both can write they
   * agree afterwards exactly if the tick decides about the key or they agreed before.
   */
  method TicksAgree(a: Daemon, b: Daemon, st: SystemState)
    requires a != b && a.Valid() && b.Valid()
    modifies a, b
    ensures a.Valid() && b.Valid() && a.isIdle == b.isIdle
    ensures forall k ::
      k in a.writable && k in b.writable
      ==> (Lookup(a.sysfs, k) == Lookup(b.sysfs, k)
           <==> Final(st, k).Some? || old(Lookup(a.sysfs, k)) == old(Lookup(b.sysfs, k)))
    ensures forall k ::
      AlwaysWritten(k) && k in a.writable && k in b.writable
      ==> Lookup(a.sysfs, k).Some? && Lookup(a.sysfs, k) == Lookup(b.sysfs, k)
  {
    ghost var sa, sb := a.sysfs, b.sysfs;
    a.Tick(st);
    b.Tick(st);
    forall k
      ensures AlwaysWritten(k) ==> Final(st, k).Some?
      ensures Lookup(a.sysfs, k) == if k in a.writable then Over(Final(st, k), Lookup(sa, k)) else Lookup(sa, k)
      ensures Lookup(b.sysfs, k) == if k in b.writable then Over(Final(st, k), Lookup(sb, k)) else Lookup(sb, k)
    {
    }
  }

  /** Ticking again on an unchanged system has no effect. */
  method TickTwiceIsOnce(once: Daemon, twice: Daemon, st: SystemState)
    requires once != twice && once.Valid() && twice.Valid()
    requires once.sysfs == twice.sysfs && once.writable == twice.writable
    modifies once, twice
    ensures once.Valid() && twice.Valid()
    ensures once.sysfs == twice.sysfs && once.isIdle == twice.isIdle
  {
    ghost var s := once.sysfs;
    once.Tick(st);
    twice.Tick(st);
    ghost var s' := twice.sysfs;
    SameWrites(s, once.sysfs, s', once.writable, st);
    twice.Tick(st);
    TickTwice(s, s', twice.sysfs, twice.writable, st);
  }

  lemma SameWrites(s: Sysfs, s': Sysfs, s'': Sysfs, writable: set<Key>, st: SystemState)
    requires Wrote(s, s', writable, k => Final(st, k)) && Wrote(s, s'', writable, k => Final(st, k))
    ensures s' == s''
  {
    forall k
      ensures Lookup(s', k) == Lookup(s'', k)
    {
      assert Lookup(s', k) == if k in writable then Over(Final(st, k), Lookup(s, k)) else Lookup(s, k);
      assert Lookup(s'', k) == if k in writable then Over(Final(st, k), Lookup(s, k)) else Lookup(s, k);
    }
    SameLookups(s', s'');
  }

  /** The polling loop, one state read before each tick. */
  method RunTicks(d: Daemon, states: seq<SystemState>)
    requires d.Valid()
    modifies d
    ensures d.Valid()
    ensures forall k ::
      Lookup(d.sysfs, k) == if k in d.writable then LastDecision(states, old(d.sysfs), k) else old(Lookup(d.sysfs, k))
  {
    ghost var stores := [d.sysfs];
    for i := 0 to |states|
      invariant d.Valid() && Ticks(stores, states[..i], d.writable)
      invariant stores[0] == old(d.sysfs) && stores[i] == d.sysfs
    {
      assert states[..i + 1][..i] == states[..i];
      ghost var before := stores;
      d.Tick(states[i]);
      stores := stores + [d.sysfs];
      OneMoreTick(before, states[..i], d.writable, d.sysfs, states[i]);
      assert states[..i] + [states[i]] == states[..i + 1];
    }
    assert states[..|states|] == states;
    forall k
      ensures Lookup(d.sysfs, k)
              == if k in d.writable then LastDecision(states, old(d.sysfs), k) else old(Lookup(d.sysfs, k))
    {
      RunKeepsLastDecision(stores, states, d.writable, k);
    }
  }

  lemma OneMoreTick(ss: seq<Sysfs>, states: seq<SystemState>, writable: set<Key>, s: Sysfs, st: SystemState)
    requires Ticks(ss, states, writable) && Wrote(ss[|states|], s, writable, k => Final(st, k))
    ensures Ticks(ss + [s], states + [st], writable)
  {
    var ss', states' := ss + [s], states + [st];
    forall i | 0 <= i < |states'|
      ensures Wrote(ss'[i], ss'[i + 1], writable, k => Final(states'[i], k))
    {
      if i < |states| {
        assert Wrote(ss[i], ss[i + 1], writable, k => Final(states[i], k));
      }
    }
  }

  // ----- and not on the order of its processes -----

  function Without(b: seq<ProcessInfo>, i: nat): seq<ProcessInfo>
    requires i < |b|
  {
    b[..i] + b[i + 1..]
  }

  lemma WithoutMultiset(b: seq<ProcessInfo>, i: nat)
    requires i < |b|
    ensures multiset(Without(b, i)) == multiset(b) - multiset{b[i]}
  {
    assert b == b[..i] + [b[i]] + b[i + 1..];
  }

  lemma {:induction false} SumWithout(b: seq<ProcessInfo>, i: nat, f: ProcessInfo -> nat)
    requires i < |b|
    ensures Sum(b, f) == Sum(Without(b, i), f) + f(b[i])
  {
    var front, last := b[..|b| - 1], b[|b| - 1];
    if i == |b| - 1 {
      assert Without(b, i) == front;
    } else {
      SumWithout(front, i, f);
      var rest := Without(b, i);
      assert rest[..|rest| - 1] == Without(front, i) && rest[|rest| - 1] == last;
    }
  }

  lemma {:induction false} SumPermuted(a: seq<ProcessInfo>, b: seq<ProcessInfo>, f: ProcessInfo -> nat)
    requires multiset(a) == multiset(b)
    ensures Sum(a, f) == Sum(b, f)
    decreases |a|
  {
    if a == [] {
      assert |multiset(b)| == 0 && b == [];
    } else {
      var n := |a| - 1;
      assert a[n] in multiset(b);
      var i :| 0 <= i < |b| && b[i] == a[n];
      WithoutMultiset(a, n);
      WithoutMultiset(b, i);
      SumWithout(a, n, f);
      SumWithout(b, i, f);
      SumPermuted(Without(a, n), Without(b, i), f);
    }
  }

  lemma SameSums(st: SystemState, st': SystemState)
    requires st' == st.(processes := st'.processes) && multiset(st.processes) == multiset(st'.processes)
    ensures SwapPolicy(st) == SwapPolicy(st')
    ensures Sum(st.processes, DefaultSwap) == Sum(st'.processes, DefaultSwap)
  {
    var a, b := st.processes, st'.processes;
    SumPermuted(a, b, LowSwap);
    SumPermuted(a, b, HighSwap);
    SumPermuted(a, b, LowTotal);
    SumPermuted(a, b, HighTotal);
    SumPermuted(a, b, DefaultSwap);
  }

  lemma SameMembers(a: seq<ProcessInfo>, b: seq<ProcessInfo>)
    requires multiset(a) == multiset(b)
    ensures forall p :: p in a <==> p in b
  {
    forall p
      ensures p in a <==> p in b
    {
      assert p in multiset(a) <==> p in multiset(b);
    }
  }

  lemma SameFacts(st: SystemState, st': SystemState)
    requires st' == st.(processes := st'.processes) && multiset(st.processes) == multiset(st'.processes)
    ensures FactsOf(st) == FactsOf(st')
  {
    SameSums(st, st');
    SameMembers(st.processes, st'.processes);
    assert Interactive(st) == Interactive(st') && HasAI(st) == HasAI(st') && HasGaming(st) == HasGaming(st');
  }

  /** Reordering the processes changes no global key; with distinct pids it changes nothing at all. */
  lemma TickIgnoresOrder(st: SystemState, st': SystemState, k: Key)
    requires st' == st.(processes := st'.processes) && multiset(st.processes) == multiset(st'.processes)
    ensures !k.OomScoreAdj? ==> Final(st, k) == Final(st', k)
    ensures DistinctPids(st.processes) && DistinctPids(st'.processes) ==> Final(st, k) == Final(st', k)
  {
    var a, b := st.processes, st'.processes;
    if !k.OomScoreAdj? {
      SameFacts(st, st');
    } else if DistinctPids(a) && DistinctPids(b) {
      SameMembers(a, b);
      if p :| p in a && p.pid == k.pid {
        OomByPriority(a, p);
        OomByPriority(b, p);
      } else {
        NoOomOf(a, k.pid);
        NoOomOf(b, k.pid);
      }
    }
  }

  /** The two swap sums of the policy split the total between high and low priority. */
  lemma {:induction false} SwapSumsPartition(ps: seq<ProcessInfo>)
    ensures Sum(ps, LowSwap) + Sum(ps, HighSwap) == Sum(ps, (p: ProcessInfo) => p.swap)
  {
    if ps != [] {
      SwapSumsPartition(ps[..|ps| - 1]);
    }
  }

  /** For a collected process list an idle tick means that no AI or gaming process runs. */
  lemma IdleMeansNothingRuns(st: SystemState, readings: seq<Reading>)
    requires st.processes == Collected(readings) && Idle(st)
    ensures !HasAI(st) && !HasGaming(st)
    ensures Final(st, Swappiness) == Some("90") && Final(st, KsmRun) == Some("1")
    ensures Final(st, KsmPagesToScan) == Some("5000") && Final(st, ZswapMaxPool) == Some("40")
  {
    CollectedPriorities(readings);
    NoneUrgent(st);
    IdleTick(FactsOf(st));
  }

  lemma NoneUrgent(st: SystemState)
    requires !Interactive(st)
    requires forall p :: p in st.processes && (IsAI(p) || p.workload == Gaming) ==> p.priority <= PRIORITY_P1
    ensures !HasAI(st) && !HasGaming(st)
  {
  }
}
