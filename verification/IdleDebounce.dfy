/** The idle optimizer of src/idle/mod.rs: debounce of idleness and once-only start of optimisations. */
module IdleDebounce {
  import opened Options

  const NANOS_PER_SEC: nat := 1_000_000_000

  /**
   * One entry per call. A check reads the clock when it starts an idle period (at) and again to
   * measure it (read); both are nanoseconds.
   */
  datatype Event = Check(idle: bool, at: nat, read: nat) | Apply | Cancel | Reset

  // ----- the fields as functions of the calls so far -----

  function IdleStart(trace: seq<Event>): Option<nat> {
    if trace == [] then None
    else
      var before := IdleStart(trace[..|trace| - 1]);
      match trace[|trace| - 1]
      case Check(idle, at, _) => if !idle then None else if before.None? then Some(at) else before
      case Apply => before
      case Cancel => None
      case Reset => None
  }

  predicate Optimizing(trace: seq<Event>) {
    trace != [] &&
    match trace[|trace| - 1]
    case Check(_, _, _) => Optimizing(trace[..|trace| - 1])
    case Apply => true
    case Cancel => false
    case Reset => false
  }

  predicate CancelPending(trace: seq<Event>) {
    trace != [] &&
    match trace[|trace| - 1]
    case Cancel => true
    case Reset => false
    case _ => CancelPending(trace[..|trace| - 1])
  }

  /** Clock readings never go back. */
  ghost predicate Monotone(trace: seq<Event>) {
    && (forall i :: 0 <= i < |trace| && trace[i].Check? ==> trace[i].at <= trace[i].read)
    && (forall i, j :: 0 <= i < j < |trace| && trace[i].Check? && trace[j].Check? ==> trace[i].read <= trace[j].at)
  }

  // ----- what the answers mean -----

  predicate EndsRun(e: Event) { e.Cancel? || e.Reset? || (e.Check? && !e.idle) }

  /** An idle check at i, and from there to the end no busy check, cancel or reset. */
  ghost predicate RunSince(trace: seq<Event>, i: int) {
    && 0 <= i < |trace| && trace[i].Check?
    && forall j :: i <= j < |trace| ==> !EndsRun(trace[j])
  }

  /** The debounce period starts at the first check of the unbroken run that reaches to the end. */
  lemma {:induction false} IdleStartIsFirstOfRun(trace: seq<Event>)
    requires Monotone(trace)
    ensures IdleStart(trace).None? <==> forall i :: !RunSince(trace, i)
    ensures IdleStart(trace).Some? ==> exists i :: RunSince(trace, i) && trace[i].at == IdleStart(trace).value
    ensures IdleStart(trace).Some? ==> forall i :: RunSince(trace, i) ==> IdleStart(trace).value <= trace[i].at
  {
    if trace != [] {
      var before, e := trace[..|trace| - 1], trace[|trace| - 1];
      IdleStartIsFirstOfRun(before);
      if EndsRun(e) {
        forall i ensures !RunSince(trace, i) {
          if 0 <= i < |trace| {
            assert EndsRun(trace[|trace| - 1]);
          }
        }
      } else {
        forall i | 0 <= i < |before|
          ensures RunSince(trace, i) <==> RunSince(before, i)
        {
          assert RunSince(before, i) ==> RunSince(trace, i);
          assert RunSince(trace, i) ==> forall j :: i <= j < |before| ==> before[j] == trace[j] && !EndsRun(trace[j]);
        }
        if e.Check? {
          assert RunSince(trace, |before|);
        }
        if IdleStart(before).Some? {
          var i :| RunSince(before, i) && before[i].at == IdleStart(before).value;
          assert RunSince(trace, i) && trace[i].at == IdleStart(trace).value;
        }
      }
    }
  }

  /** What check_idle answers when it is the last call of the trace. */
  function Answer(trace: seq<Event>, threshold: nat): bool
    requires trace != [] && trace[|trace| - 1].Check?
  {
    var e := trace[|trace| - 1];
    e.idle && IdleStart(trace).Some? && (e.read - IdleStart(trace).value) / NANOS_PER_SEC >= threshold
  }

  /**
   * check_idle answers true exactly if some check at least the threshold before it, or it itself,
   * started an unbroken run of idle checks with no cancel and no reset in between.
   */
  lemma AnswerMeansLongRun(trace: seq<Event>, threshold: nat)
    requires Monotone(trace) && trace != [] && trace[|trace| - 1].Check?
    ensures Answer(trace, threshold) <==>
            exists i :: RunSince(trace, i) && (trace[|trace| - 1].read - trace[i].at) / NANOS_PER_SEC >= threshold
  {
    IdleStartIsFirstOfRun(trace);
    var e := trace[|trace| - 1];
    if Answer(trace, threshold) {
      var i :| RunSince(trace, i) && trace[i].at == IdleStart(trace).value;
    }
    if i :| RunSince(trace, i) && (e.read - trace[i].at) / NANOS_PER_SEC >= threshold {
      assert !EndsRun(e);
      assert IdleStart(trace).value <= trace[i].at;
    }
  }

  /** The call at i really starts optimisations instead of finding them running. */
  predicate Starts(trace: seq<Event>, i: int) {
    0 <= i < |trace| && trace[i].Apply? && !Optimizing(trace[..i])
  }

  predicate Stops(e: Event) { e.Cancel? || e.Reset? }

  lemma {:induction false} OptimizingSinceApply(trace: seq<Event>)
    ensures Optimizing(trace) <==>
            exists i :: 0 <= i < |trace| && trace[i].Apply? && forall j :: i < j < |trace| ==> !Stops(trace[j])
  {
    if trace != [] {
      var before, e := trace[..|trace| - 1], trace[|trace| - 1];
      OptimizingSinceApply(before);
      if Optimizing(before) && !Stops(e) {
        var i :| 0 <= i < |before| && before[i].Apply? && forall j :: i < j < |before| ==> !Stops(before[j]);
        assert trace[i].Apply?;
        assert forall j :: i < j < |trace| ==> !Stops(trace[j]);
      }
      if i :| 0 <= i < |trace| && trace[i].Apply? && forall j :: i < j < |trace| ==> !Stops(trace[j]) {
        if i < |before| {
          assert before[i].Apply?;
          assert forall j :: i < j < |before| ==> before[j] == trace[j];
        }
      }
    }
  }

  /** An apply starts optimisations exactly if a cancel or reset came after every earlier apply. */
  lemma StartsIffStoppedSince(trace: seq<Event>, j: int)
    requires 0 <= j < |trace| && trace[j].Apply?
    ensures Starts(trace, j) <==>
            forall i :: 0 <= i < j && trace[i].Apply? ==> exists m :: i < m < j && Stops(trace[m])
  {
    var before := trace[..j];
    OptimizingSinceApply(before);
    if Starts(trace, j) {
      forall i | 0 <= i < j && trace[i].Apply?
        ensures exists m :: i < m < j && Stops(trace[m])
      {
        assert before[i].Apply?;
        var m :| i < m < j && Stops(before[m]);
        assert Stops(trace[m]);
      }
    } else {
      var i :| 0 <= i < |before| && before[i].Apply? && forall m :: i < m < |before| ==> !Stops(before[m]);
      assert trace[i].Apply?;
      assert forall m :: i < m < j ==> before[m] == trace[m];
    }
  }

  /** So they start at most once between two cancels or resets. */
  lemma StartsOncePerPeriod(trace: seq<Event>, i: int, j: int)
    requires i < j && Starts(trace, i) && Starts(trace, j)
    ensures exists m :: i < m < j && Stops(trace[m])
  {
    StartsIffStoppedSince(trace, j);
  }

  // ----- what a start writes -----

  datatype Level = Minimal | Normal | Aggressive

  datatype Path =
    | KsmRun | ThpEnabled | Swappiness | VfsCachePressure | KsmPagesToScan | DropCaches | PageCluster

  datatype Write = Write(path: Path, value: string)

  /** The files that exist, those that take a write, and the swap in use. */
  datatype System = System(existing: set<Path>, accepting: set<Path>, swapUsedKb: nat)

  function AndIf(plan: seq<Write>, wanted: bool, path: Path, value: string): seq<Write> {
    if wanted then plan + [Write(path, value)] else plan
  }

  function MinimalPlan(sys: System): seq<Write> {
    AndIf(AndIf([], KsmRun in sys.existing, KsmRun, "1"), ThpEnabled in sys.existing, ThpEnabled, "[madvise]")
  }

  function NormalPlan(sys: System): seq<Write> {
    var always := MinimalPlan(sys) + [Write(Swappiness, "90")] + [Write(VfsCachePressure, "25")];
    AndIf(always, KsmPagesToScan in sys.existing, KsmPagesToScan, "5000")
  }

  function AggressivePlan(sys: System): seq<Write> {
    AndIf(NormalPlan(sys), sys.swapUsedKb > 512 * 1024, DropCaches, "3") + [Write(PageCluster, "3")]
  }

  function Plan(level: Level, sys: System): seq<Write> {
    match level
    case Minimal => MinimalPlan(sys)
    case Normal => NormalPlan(sys)
    case Aggressive => AggressivePlan(sys)
  }

  /** The seven writes in their order, each with what it takes to be wanted. */
  lemma PlansInValues(sys: System)
    ensures var ksm := if KsmRun in sys.existing then [Write(KsmRun, "1")] else [];
            var thp := if ThpEnabled in sys.existing then [Write(ThpEnabled, "[madvise]")] else [];
            var pages := if KsmPagesToScan in sys.existing then [Write(KsmPagesToScan, "5000")] else [];
            var drop := if sys.swapUsedKb > 524288 then [Write(DropCaches, "3")] else [];
            var always := [Write(Swappiness, "90"), Write(VfsCachePressure, "25")];
            && Plan(Minimal, sys) == ksm + thp
            && Plan(Normal, sys) == ksm + thp + always + pages
            && Plan(Aggressive, sys) == ksm + thp + always + pages + drop + [Write(PageCluster, "3")]
  {
  }

  predicate AllAccepted(ws: seq<Write>, sys: System) {
    forall w :: w in ws ==> w.path in sys.accepting
  }

  /** The writes that happen and the answer, when the first refused write ends the plan. */
  function Attempt(plan: seq<Write>, sys: System): (seq<Write>, bool) {
    if plan == [] then ([], true)
    else
      var before, w := Attempt(plan[..|plan| - 1], sys), plan[|plan| - 1];
      if before.1 && w.path in sys.accepting then (before.0 + [w], true) else (before.0, false)
  }

  lemma AttemptNext(plan: seq<Write>, w: Write, sys: System)
    ensures Attempt(plan + [w], sys)
            == if Attempt(plan, sys).1 && w.path in sys.accepting then (Attempt(plan, sys).0 + [w], true)
               else (Attempt(plan, sys).0, false)
  {
    assert (plan + [w])[..|plan|] == plan;
  }

  /** What happens is the longest prefix of accepted writes, and Ok means all of them. */
  lemma {:induction false} AttemptIsLongest(plan: seq<Write>, sys: System)
    ensures var r := Attempt(plan, sys);
            && r.0 <= plan && AllAccepted(r.0, sys)
            && (|r.0| < |plan| ==> plan[|r.0|].path !in sys.accepting)
            && (r.1 <==> r.0 == plan) && (r.1 <==> AllAccepted(plan, sys))
  {
    if plan != [] {
      var front, w := plan[..|plan| - 1], plan[|plan| - 1];
      AttemptIsLongest(front, sys);
      assert plan == front + [w];
      assert w in plan && forall v :: v in front ==> v in plan;
    }
  }

  lemma {:induction false} AttemptPrefix(plan: seq<Write>, more: seq<Write>, sys: System)
    ensures Attempt(plan, sys).0 <= Attempt(plan + more, sys).0
    ensures !Attempt(plan, sys).1 ==> Attempt(plan + more, sys) == Attempt(plan, sys)
  {
    if more == [] {
      assert plan + more == plan;
    } else {
      assert plan + more == plan + more[..|more| - 1] + [more[|more| - 1]];
      AttemptPrefix(plan, more[..|more| - 1], sys);
      AttemptNext(plan + more[..|more| - 1], more[|more| - 1], sys);
    }
  }

  /** A higher level first does all a lower one does, and what stops the lower one stops it too. */
  lemma LevelsNest(sys: System)
    ensures Attempt(MinimalPlan(sys), sys).0 <= Attempt(NormalPlan(sys), sys).0
            <= Attempt(AggressivePlan(sys), sys).0
    ensures Attempt(AggressivePlan(sys), sys).1 ==> Attempt(NormalPlan(sys), sys).1
    ensures Attempt(NormalPlan(sys), sys).1 ==> Attempt(MinimalPlan(sys), sys).1
  {
    var minimal, normal, aggressive := MinimalPlan(sys), NormalPlan(sys), AggressivePlan(sys);
    var addedByNormal, addedByAggressive := normal[|minimal|..], aggressive[|normal|..];
    assert normal == minimal + addedByNormal && aggressive == normal + addedByAggressive;
    AttemptPrefix(minimal, addedByNormal, sys);
    AttemptPrefix(normal, addedByAggressive, sys);
  }

  class IdleOptimizer {
    const threshold: nat
    const level: Level
    var idleStart: Option<nat>
    var isOptimizing: bool
    var cancelPending: bool
    ghost var trace: seq<Event>
    /** The settings written so far, in order. */
    ghost var written: seq<Write>

    ghost predicate Valid()
      reads this
    {
      idleStart == IdleStart(trace) && isOptimizing == Optimizing(trace) && cancelPending == CancelPending(trace)
    }

    constructor (threshold: nat, level: Level)
      ensures Valid() && trace == [] && written == [] && this.threshold == threshold && this.level == level
    {
      this.threshold, this.level := threshold, level;
      idleStart, isOptimizing, cancelPending := None, false, false;
      trace, written := [], [];
    }

    method CheckIdle(memoryPercent: real, activeProcesses: nat, at: nat, read: nat) returns (r: bool)
      requires Valid() && Monotone(trace + [Check(memoryPercent < 40.0 && activeProcesses < 10, at, read)])
      modifies this
      ensures Valid() && trace == old(trace) + [Check(memoryPercent < 40.0 && activeProcesses < 10, at, read)]
      ensures idleStart == if memoryPercent >= 40.0 || activeProcesses >= 10 then None
                           else if old(idleStart).None? then Some(at) else old(idleStart)
      ensures isOptimizing == old(isOptimizing) && cancelPending == old(cancelPending)
      ensures r == Answer(trace, threshold) && written == old(written)
    {
      var idle := memoryPercent < 40.0 && activeProcesses < 10;
      ghost var before := trace;
      trace := trace + [Check(idle, at, read)];
      assert trace[..|trace| - 1] == before;
      IdleStartIsFirstOfRun(trace);
      if idle {
        if idleStart.None? {
          idleStart := Some(at);
        }
        var elapsed := read - idleStart.value;
        return elapsed / NANOS_PER_SEC >= threshold;
      } else {
        idleStart := None;
        return false;
      }
    }

    /**
     * A call that finds optimisations started answers Ok and writes nothing, whatever became of the
     * writes that started them. Otherwise the plan is written up to the first refused write.
     */
    method ApplyIdleOptimizations(sys: System) returns (ok: bool)
      requires Valid()
      modifies this
      ensures Valid() && trace == old(trace) + [Apply]
      ensures isOptimizing && idleStart == old(idleStart) && cancelPending == old(cancelPending)
      ensures old(isOptimizing) ==> ok && written == old(written)
      ensures written
              == if Starts(trace, |trace| - 1) then old(written) + Attempt(Plan(level, sys), sys).0 else old(written)
      ensures ok <==> (Starts(trace, |trace| - 1) ==> Attempt(Plan(level, sys), sys).1)
    {
      ghost var before := trace;
      trace := trace + [Apply];
      assert trace[..|trace| - 1] == before;
      if isOptimizing {
        return true;
      }
      isOptimizing := true;
      match level {
        case Minimal => ok := ApplyMinimal(sys);
        case Normal => ok := ApplyNormal(sys);
        case Aggressive => ok := ApplyAggressive(sys);
      }
    }

    /** One write behind a question mark: nothing happens after a failure. plan: what was tried before. */
    method TryWrite(sys: System, soFar: bool, path: Path, value: string, ghost plan: seq<Write>, ghost start: seq<Write>)
      returns (ok: bool)
      requires written == start + Attempt(plan, sys).0 && soFar == Attempt(plan, sys).1
      modifies this`written
      ensures written == start + Attempt(plan + [Write(path, value)], sys).0
      ensures ok == Attempt(plan + [Write(path, value)], sys).1
    {
      AttemptNext(plan, Write(path, value), sys);
      ok := soFar && path in sys.accepting;
      if ok {
        written := written + [Write(path, value)];
      }
    }

    method ApplyMinimal(sys: System) returns (ok: bool)
      modifies this`written
      ensures written == old(written) + Attempt(MinimalPlan(sys), sys).0
      ensures ok == Attempt(MinimalPlan(sys), sys).1
    {
      ok := true;
      if KsmRun in sys.existing {
        ok := TryWrite(sys, ok, KsmRun, "1", [], old(written));
      }
      if ThpEnabled in sys.existing {
        ok := TryWrite(sys, ok, ThpEnabled, "[madvise]", AndIf([], KsmRun in sys.existing, KsmRun, "1"), old(written));
      }
    }

    method ApplyNormal(sys: System) returns (ok: bool)
      modifies this`written
      ensures written == old(written) + Attempt(NormalPlan(sys), sys).0
      ensures ok == Attempt(NormalPlan(sys), sys).1
    {
      ghost var plan := MinimalPlan(sys);
      ok := ApplyMinimal(sys);
      ok := TryWrite(sys, ok, Swappiness, "90", plan, old(written));
      plan := plan + [Write(Swappiness, "90")];
      ok := TryWrite(sys, ok, VfsCachePressure, "25", plan, old(written));
      plan := plan + [Write(VfsCachePressure, "25")];
      if KsmPagesToScan in sys.existing {
        ok := TryWrite(sys, ok, KsmPagesToScan, "5000", plan, old(written));
      }
    }

    method ApplyAggressive(sys: System) returns (ok: bool)
      modifies this`written
      ensures written == old(written) + Attempt(AggressivePlan(sys), sys).0
      ensures ok == Attempt(AggressivePlan(sys), sys).1
    {
      ghost var plan := NormalPlan(sys);
      ok := ApplyNormal(sys);
      if sys.swapUsedKb > 512 * 1024 {
        ok := TryWrite(sys, ok, DropCaches, "3", plan, old(written));
        plan := plan + [Write(DropCaches, "3")];
      }
      ok := TryWrite(sys, ok, PageCluster, "3", plan, old(written));
    }

    method CancelWithin100ms()
      requires Valid()
      modifies this
      ensures Valid() && trace == old(trace) + [Cancel] && written == old(written)
      ensures !isOptimizing && idleStart == None && cancelPending
    {
      ghost var before := trace;
      trace := trace + [Cancel];
      assert trace[..|trace| - 1] == before;
      if !cancelPending {
        cancelPending := true;
      }
      isOptimizing := false;
      idleStart := None;
    }

    method ResetAll()
      requires Valid()
      modifies this
      ensures Valid() && trace == old(trace) + [Reset] && written == old(written)
      ensures !isOptimizing && idleStart == None && !cancelPending
    {
      ghost var before := trace;
      trace := trace + [Reset];
      assert trace[..|trace| - 1] == before;
      isOptimizing := false;
      cancelPending := false;
      idleStart := None;
    }
  }

  /**
   * A start that breaks off at a refused write is not made up for: the next call writes nothing and
   * answers Ok, even if by then every write would be accepted.
   */
  method ApplyTwice(o: IdleOptimizer, sys: System, later: System) returns (first: bool, second: bool)
    requires o.Valid() && !Optimizing(o.trace)
    modifies o
    ensures first <==> AllAccepted(Plan(o.level, sys), sys)
    ensures second && o.written == old(o.written) + Attempt(Plan(o.level, sys), sys).0
  {
    ghost var before := o.trace;
    first := o.ApplyIdleOptimizations(sys);
    assert o.trace[..|o.trace| - 1] == before;
    AttemptIsLongest(Plan(o.level, sys), sys);
    ghost var between := o.trace;
    second := o.ApplyIdleOptimizations(later);
    assert o.trace[..|o.trace| - 1] == between;
  }
}
