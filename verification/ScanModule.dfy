/**
 * Load, scan timer, work queue and unload of kmod/uroam_kernel.c as interleaved steps of three agents:
 * the thread that loads and unloads the module, the timer, and the work queue's worker.
 */
module ScanModule {
  import opened Options

  /** The next statement of uroam_init or uroam_exit, or a resting point. */
  datatype Point =
    | AllocQueue | MakeDir | MakeEntry | RegisterSysctl | ArmTimer
    | UndoEntry | UndoDir | UndoQueue | LoadFailed
    | Loaded
    | DelTimer | Flush | DropSysctl | DropEntry | DropDir | DestroyQueue | Unloaded

  /** The timer callback is between being entered and leaving, before one of its two statements. */
  datatype Callback = Resting | AboutToQueue | AboutToRearm

  /** misused: the queue was used while it did not exist, or the timer was set while the module was gone. */
  datatype State = State(at: Point, dir: bool, entry: bool, sysctl: bool,
                         queue: bool, pending: bool, running: bool,
                         armed: bool, callback: Callback, misused: bool)

  const START := State(AllocQueue, false, false, false, false, false, false, false, Resting, false)

  /** Module(ok): the load/unload thread runs its next statement; ok is the outcome of an allocation there. */
  datatype Step = Module(ok: bool) | TimerFires | QueueWork | Rearm | WorkStarts | WorkEnds

  predicate Quiet(s: State) { !s.armed && s.callback == Resting }

  predicate Drained(s: State) { !s.pending && !s.running }

  /** uroam_init, with the labels of its error exits. */
  function LoadStep(s: State, ok: bool): Option<State> {
    match s.at
    case AllocQueue => Some(if ok then s.(queue := true, at := MakeDir) else s.(at := LoadFailed))
    case MakeDir => Some(if ok then s.(dir := true, at := MakeEntry) else s.(at := UndoQueue))
    case MakeEntry => Some(if ok then s.(entry := true, at := RegisterSysctl) else s.(at := UndoDir))
    case RegisterSysctl => Some(if ok then s.(sysctl := true, at := ArmTimer) else s.(at := UndoEntry))
    case ArmTimer => Some(s.(armed := true, at := Loaded))
    case UndoEntry => Some(s.(entry := false, at := UndoDir))
    case UndoDir => Some(s.(dir := false, at := UndoQueue))
    case UndoQueue => if Drained(s) then Some(Destroyed(s).(at := LoadFailed)) else None
    case _ => None
  }

  /** Resting loaded, then uroam_exit. */
  function UnloadStep(s: State): Option<State> {
    match s.at
    case Loaded => Some(s.(at := DelTimer))
    case DelTimer => if s.callback == Resting then Some(s.(armed := false, at := Flush)) else None
    case Flush => if Drained(s) then Some(Used(s).(at := DropSysctl)) else None
    case DropSysctl => Some(s.(sysctl := false, at := DropEntry))
    case DropEntry => Some(s.(entry := false, at := DropDir))
    case DropDir => Some(s.(dir := false, at := DestroyQueue))
    case DestroyQueue => if Drained(s) then Some(Destroyed(s).(at := Unloaded)) else None
    case _ => None
  }

  /** The next statement of the loading and unloading thread. */
  function ModuleStep(s: State, ok: bool): Option<State> {
    if Loading(s.at) then LoadStep(s, ok) else UnloadStep(s)
  }

  /** Any use of the queue is a misuse if there is none. */
  function Used(s: State): State { s.(misused := s.misused || !s.queue) }

  function Destroyed(s: State): State { Used(s).(queue := false) }

  predicate Gone(s: State) { s.at.LoadFailed? || s.at.Unloaded? }

  /** One step of any agent, None where the step cannot happen. */
  function Next(s: State, step: Step): Option<State> {
    match step
    case Module(ok) => ModuleStep(s, ok)
    case TimerFires =>
      if s.armed && s.callback == Resting then Some(s.(armed := false, callback := AboutToQueue)) else None
    case QueueWork =>
      if s.callback == AboutToQueue then Some(Used(s).(pending := true, callback := AboutToRearm)) else None
    case Rearm =>
      if s.callback == AboutToRearm
      then Some(s.(armed := true, callback := Resting, misused := s.misused || Gone(s)))
      else None
    case WorkStarts =>
      if s.pending && !s.running then Some(Used(s).(pending := false, running := true)) else None
    case WorkEnds =>
      if s.running then Some(Used(s).(running := false)) else None
  }

  function RunFrom(s: State, run: seq<Step>): Option<State> {
    if run == [] then Some(s)
    else
      match RunFrom(s, run[..|run| - 1])
      case None => None
      case Some(t) => Next(t, run[|run| - 1])
  }

  predicate Reachable(s: State, run: seq<Step>) { RunFrom(START, run) == Some(s) }

  predicate Loading(p: Point) {
    p.AllocQueue? || p.MakeDir? || p.MakeEntry? || p.RegisterSysctl? || p.ArmTimer?
    || p.UndoEntry? || p.UndoDir? || p.UndoQueue? || p.LoadFailed?
  }

  /** At or past this point of the unload the timer has been deleted. */
  predicate TimerDeleted(p: Point) {
    p.Flush? || p.DropSysctl? || p.DropEntry? || p.DropDir? || p.DestroyQueue? || p.Unloaded?
  }

  /** What is held at each point, and who may be active there. */
  ghost predicate Inv(s: State) {
    && !s.misused
    && (s.queue <==> !(s.at.AllocQueue? || s.at.LoadFailed? || s.at.Unloaded?))
    && (s.dir <==> !(s.at.AllocQueue? || s.at.MakeDir? || s.at.UndoQueue? || s.at.LoadFailed?
                     || s.at.DestroyQueue? || s.at.Unloaded?))
    && (s.entry <==> s.at.RegisterSysctl? || s.at.ArmTimer? || s.at.UndoEntry? || s.at.Loaded? || s.at.DelTimer?
                     || s.at.Flush? || s.at.DropSysctl? || s.at.DropEntry?)
    && (s.sysctl <==> s.at.ArmTimer? || s.at.Loaded? || s.at.DelTimer? || s.at.Flush? || s.at.DropSysctl?)
    && (Loading(s.at) ==> Quiet(s) && Drained(s))
    && (TimerDeleted(s.at) ==> Quiet(s))
    && (TimerDeleted(s.at) && !s.at.Flush? ==> Drained(s))
    && (s.at.Loaded? || s.at.DelTimer? ==> (s.armed <==> s.callback == Resting))
  }

  lemma InvStep(s: State, step: Step)
    requires Inv(s) && Next(s, step).Some?
    ensures Inv(Next(s, step).value)
  {
  }

  lemma {:induction false} InvHolds(s: State, run: seq<Step>)
    requires Reachable(s, run)
    ensures Inv(s)
    decreases |run|
  {
    if run != [] {
      var before := RunFrom(START, run[..|run| - 1]).value;
      InvHolds(before, run[..|run| - 1]);
      InvStep(before, run[|run| - 1]);
    }
  }

  /** In no interleaving is the work queue used outside its lifetime, or the timer set after unloading. */
  lemma NeverMisused(s: State, run: seq<Step>)
    requires Reachable(s, run)
    ensures !s.misused
    ensures Next(s, QueueWork).Some? || Next(s, WorkStarts).Some? || Next(s, WorkEnds).Some? ==> s.queue
  {
    InvHolds(s, run);
  }

  /** A load that fails has never armed the timer, and leaves nothing behind; neither does an unload. */
  lemma NothingLeft(s: State, run: seq<Step>)
    requires Reachable(s, run)
    ensures Loading(s.at) ==> Quiet(s) && Drained(s)
    ensures Gone(s) ==> !s.dir && !s.entry && !s.sysctl && !s.queue && Quiet(s) && Drained(s)
    ensures Gone(s) ==> forall step :: Next(s, step).None?
  {
    InvHolds(s, run);
  }

  /** Deleting the timer is final: whatever runs afterwards, nothing queues work or arms the timer again. */
  lemma {:induction false} TimerStaysDeleted(s: State, more: seq<Step>)
    requires Inv(s) && TimerDeleted(s.at) && RunFrom(s, more).Some?
    ensures var t := RunFrom(s, more).value; Inv(t) && TimerDeleted(t.at) && Quiet(t)
    ensures TimerFires !in more && QueueWork !in more && Rearm !in more
  {
    if more != [] {
      var front, step := more[..|more| - 1], more[|more| - 1];
      TimerStaysDeleted(s, front);
      InvStep(RunFrom(s, front).value, step);
      assert more == front + [step];
    }
  }

  /** Work still to be done before a flush can return. */
  function WorkLeft(s: State): nat {
    (if s.pending then 2 else 0) + (if s.running then 1 else 0)
  }

  /**
   * The flush waits for at most three worker steps: a run that stays at the flush has exactly as many
   * steps as the amount of work it removed, and when no work is left the flush returns.
   */
  lemma {:induction false} FlushDrains(s: State, more: seq<Step>)
    requires Inv(s) && s.at == Flush && RunFrom(s, more).Some? && RunFrom(s, more).value.at == Flush
    ensures |more| == WorkLeft(s) - WorkLeft(RunFrom(s, more).value) <= 3
    ensures WorkLeft(RunFrom(s, more).value) == 0 <==> Next(RunFrom(s, more).value, Module(true)).Some?
    ensures WorkLeft(RunFrom(s, more).value) > 0 ==>
              Next(RunFrom(s, more).value, WorkStarts).Some? || Next(RunFrom(s, more).value, WorkEnds).Some?
  {
    TimerStaysDeleted(s, more);
    if more != [] {
      var front, step := more[..|more| - 1], more[|more| - 1];
      TimerStaysDeleted(s, front);
      var t := RunFrom(s, front).value;
      assert t.at == Flush by {
        InvStep(t, step);
      }
      FlushDrains(s, front);
    }
  }

  /** t has the work and the callback as in s. */
  predicate SameAgents(s: State, t: State) {
    t.pending == s.pending && t.running == s.running && t.callback == s.callback
  }

  lemma LoadKeepsAgents(s: State, ok: bool)
    requires LoadStep(s, ok).Some? && !s.at.UndoEntry? && !s.at.UndoDir? && !s.at.UndoQueue?
    ensures SameAgents(s, LoadStep(s, ok).value)
  {
    match s.at
    case AllocQueue => assert SameAgents(s, LoadStep(s, ok).value);
    case MakeDir => assert SameAgents(s, LoadStep(s, ok).value);
    case MakeEntry => assert SameAgents(s, LoadStep(s, ok).value);
    case RegisterSysctl => assert SameAgents(s, LoadStep(s, ok).value);
    case ArmTimer => assert SameAgents(s, LoadStep(s, ok).value);
    case _ =>
  }

  lemma UndoKeepsAgents(s: State, ok: bool)
    requires LoadStep(s, ok).Some? && (s.at.UndoEntry? || s.at.UndoDir? || s.at.UndoQueue?)
    ensures SameAgents(s, LoadStep(s, ok).value)
  {
  }

  lemma UnloadKeepsAgents(s: State)
    requires UnloadStep(s).Some?
    ensures SameAgents(s, UnloadStep(s).value)
  {
    match s.at
    case Loaded => assert SameAgents(s, UnloadStep(s).value);
    case DelTimer => assert SameAgents(s, UnloadStep(s).value);
    case Flush => assert SameAgents(s, UnloadStep(s).value);
    case DropSysctl => assert SameAgents(s, UnloadStep(s).value);
    case DropEntry => assert SameAgents(s, UnloadStep(s).value);
    case DropDir => assert SameAgents(s, UnloadStep(s).value);
    case DestroyQueue => assert SameAgents(s, UnloadStep(s).value);
    case _ =>
  }

  lemma ModuleKeepsAgents(s: State, ok: bool)
    requires ModuleStep(s, ok).Some?
    ensures SameAgents(s, ModuleStep(s, ok).value)
  {
    if s.at.UndoEntry? || s.at.UndoDir? || s.at.UndoQueue? {
      UndoKeepsAgents(s, ok);
    } else if Loading(s.at) {
      LoadKeepsAgents(s, ok);
    } else {
      UnloadKeepsAgents(s);
    }
  }

  lemma WorkGoesOn(s: State, step: Step)
    requires Next(s, step).Some?
    ensures var t := Next(s, step).value;
            (s.pending ==> t.pending || (step == WorkStarts && t.running)) && (s.running ==> t.running || step == WorkEnds)
  {
    if step.Module? {
      ModuleKeepsAgents(s, step.ok);
    }
  }

  lemma CallbackGoesOn(s: State, step: Step)
    requires s.callback == AboutToQueue && Next(s, step).Some?
    ensures var t := Next(s, step).value; t.callback == AboutToQueue || (step == QueueWork && t.pending)
  {
    if step.Module? {
      ModuleKeepsAgents(s, step.ok);
    }
  }

  predicate EndsAfter(more: seq<Step>, i: nat) {
    exists j :: i < j < |more| && more[j] == WorkEnds
  }

  predicate StartedAt(running: bool, more: seq<Step>, i: nat) {
    i < |more| && more[i] == WorkStarts && (running || EndsAfter(more, i))
  }

  /** From position k of the run on work is waiting, being done, or has been done. */
  ghost predicate Attended(pending: bool, running: bool, more: seq<Step>, k: nat) {
    pending || exists i: nat :: k <= i && StartedAt(running, more, i)
  }

  lemma AttendedNext(pending: bool, running: bool, more: seq<Step>, k: nat, pending': bool, running': bool, step: Step)
    requires k <= |more| && Attended(pending, running, more, k)
    requires pending ==> pending' || (step == WorkStarts && running')
    requires running ==> running' || step == WorkEnds
    ensures Attended(pending', running', more + [step], k)
  {
    var more' := more + [step];
    assert more'[|more|] == step;
    if pending {
      assert pending' || StartedAt(running', more', |more|);
    } else {
      var i: nat :| k <= i && StartedAt(running, more, i);
      assert more'[i] == WorkStarts;
      if EndsAfter(more, i) {
        var j :| i < j < |more| && more[j] == WorkEnds;
        assert more'[j] == WorkEnds;
      }
      assert StartedAt(running', more', i);
    }
  }

  lemma AttendedStep(t: State, more: seq<Step>)
    requires more != [] && Next(t, more[|more| - 1]).Some?
    requires Attended(t.pending, t.running, more[..|more| - 1], 0)
    ensures var t' := Next(t, more[|more| - 1]).value; Attended(t'.pending, t'.running, more, 0)
  {
    var front, step := more[..|more| - 1], more[|more| - 1];
    assert front + [step] == more;
    var t' := Next(t, step).value;
    WorkGoesOn(t, step);
    AttendedNext(t.pending, t.running, front, 0, t'.pending, t'.running, step);
  }

  lemma {:induction false} AttendedForever(s: State, more: seq<Step>)
    requires s.pending && RunFrom(s, more).Some?
    ensures var t := RunFrom(s, more).value; Attended(t.pending, t.running, more, 0)
  {
    if more != [] {
      AttendedForever(s, more[..|more| - 1]);
      AttendedStep(RunFrom(s, more[..|more| - 1]).value, more);
    }
  }

  lemma {:induction false} InvAlong(s: State, more: seq<Step>)
    requires Inv(s) && RunFrom(s, more).Some?
    ensures Inv(RunFrom(s, more).value)
  {
    if more != [] {
      InvAlong(s, more[..|more| - 1]);
      InvStep(RunFrom(s, more[..|more| - 1]).value, more[|more| - 1]);
    }
  }

  /** The unload is past its flush. */
  predicate PastFlush(s: State) { TimerDeleted(s.at) && s.at != Flush }

  /** Work once queued is started and finished before an unload gets past its flush. */
  lemma QueuedWorkIsDone(s: State, more: seq<Step>)
    requires Inv(s) && Next(s, QueueWork).Some?
    requires RunFrom(Next(s, QueueWork).value, more).Some? && PastFlush(RunFrom(Next(s, QueueWork).value, more).value)
    ensures exists i, j :: 0 <= i < j < |more| && more[i] == WorkStarts && more[j] == WorkEnds
  {
    var queued := Next(s, QueueWork).value;
    InvStep(s, QueueWork);
    InvAlong(queued, more);
    AttendedForever(queued, more);
    var i: nat :| StartedAt(false, more, i);
    var j :| i < j < |more| && more[j] == WorkEnds;
  }

  /** The callback has yet to queue the work, or did so at q and the work has been attended to since. */
  ghost predicate Answered(queueing: bool, pending: bool, running: bool, more: seq<Step>) {
    queueing || exists q: nat :: AnsweredAt(pending, running, more, q)
  }

  ghost predicate AnsweredAt(pending: bool, running: bool, more: seq<Step>, q: nat) {
    q < |more| && more[q] == QueueWork && Attended(pending, running, more, q + 1)
  }

  lemma AnsweredNext(pending: bool, running: bool, more: seq<Step>, q: nat, pending': bool, running': bool, step: Step)
    requires AnsweredAt(pending, running, more, q)
    requires pending ==> pending' || (step == WorkStarts && running')
    requires running ==> running' || step == WorkEnds
    ensures AnsweredAt(pending', running', more + [step], q)
  {
    AttendedNext(pending, running, more, q + 1, pending', running', step);
    assert (more + [step])[q] == more[q];
  }

  lemma AnsweredStep(t: State, more: seq<Step>)
    requires more != [] && Next(t, more[|more| - 1]).Some?
    requires Answered(t.callback.AboutToQueue?, t.pending, t.running, more[..|more| - 1])
    ensures var t' := Next(t, more[|more| - 1]).value;
            Answered(t'.callback.AboutToQueue?, t'.pending, t'.running, more)
  {
    var front, step := more[..|more| - 1], more[|more| - 1];
    assert front + [step] == more;
    var t' := Next(t, step).value;
    if t.callback.AboutToQueue? {
      CallbackGoesOn(t, step);
      assert t'.callback.AboutToQueue? || AnsweredAt(t'.pending, t'.running, more, |front|);
    } else {
      var q: nat :| AnsweredAt(t.pending, t.running, front, q);
      WorkGoesOn(t, step);
      AnsweredNext(t.pending, t.running, front, q, t'.pending, t'.running, step);
    }
  }

  lemma {:induction false} FiringIsAnswered(s: State, more: seq<Step>)
    requires s.callback.AboutToQueue? && RunFrom(s, more).Some?
    ensures var t := RunFrom(s, more).value; Answered(t.callback.AboutToQueue?, t.pending, t.running, more)
  {
    if more != [] {
      FiringIsAnswered(s, more[..|more| - 1]);
      AnsweredStep(RunFrom(s, more[..|more| - 1]).value, more);
    }
  }

  /** Every firing of the timer leads to a queueing, and that to a finished scan, before the queue can go. */
  lemma FiringLeadsToScan(s: State, more: seq<Step>)
    requires Inv(s) && Next(s, TimerFires).Some?
    requires RunFrom(Next(s, TimerFires).value, more).Some? && PastFlush(RunFrom(Next(s, TimerFires).value, more).value)
    ensures exists q, i, j ::
              0 <= q < i < j < |more| && more[q] == QueueWork && more[i] == WorkStarts && more[j] == WorkEnds
  {
    var fired := Next(s, TimerFires).value;
    InvStep(s, TimerFires);
    InvAlong(fired, more);
    FiringIsAnswered(fired, more);
    var q: nat :| AnsweredAt(false, false, more, q);
    var i: nat :| q + 1 <= i && StartedAt(false, more, i);
    var j :| i < j < |more| && more[j] == WorkEnds;
  }

  /** What is held is nested: sysctl table, status file, directory, queue; agents are active only inside. */
  lemma ResourcesNest(s: State, run: seq<Step>)
    requires Reachable(s, run)
    ensures (s.sysctl ==> s.entry) && (s.entry ==> s.dir) && (s.dir ==> s.queue)
    ensures s.armed || s.callback != Resting ==> s.sysctl
    ensures s.pending || s.running ==> s.queue
  {
    InvHolds(s, run);
  }

  /** Bounds the steps the timer callback and the worker can still take unless the timer fires again. */
  function StepsLeft(s: State): nat {
    WorkLeft(s) + if s.callback == AboutToQueue then 4 else if s.callback == AboutToRearm then 1 else 0
  }

  function Firings(run: seq<Step>): nat {
    if run == [] then 0 else Firings(run[..|run| - 1]) + if run[|run| - 1] == TimerFires then 1 else 0
  }

  lemma DelTimerCost(s: State, step: Step)
    requires s.at == DelTimer && Next(s, step).Some? && Next(s, step).value.at == DelTimer
    ensures 1 + StepsLeft(Next(s, step).value) <= StepsLeft(s) + if step == TimerFires then 5 else 0
  {
    var t := Next(s, step).value;
    match step
    case Module(_) => FromDelTimer(s, step);
    case TimerFires => assert t == s.(armed := false, callback := AboutToQueue);
    case QueueWork => assert WorkLeft(t) <= WorkLeft(s) + 2;
    case Rearm => assert WorkLeft(t) == WorkLeft(s);
    case WorkStarts => assert WorkLeft(t) == WorkLeft(s) - 1 && t.callback == s.callback;
    case WorkEnds => assert WorkLeft(t) == WorkLeft(s) - 1 && t.callback == s.callback;
  }

  /**
   * The wait in del_timer_sync. It can end exactly when the callback rests, and some agent can move
   * while it does not; a run that stays there has at most seven steps and five more per firing.
   */
  lemma {:induction false} TimerDeletionWaits(s: State, more: seq<Step>)
    requires Inv(s) && s.at == DelTimer && RunFrom(s, more).Some? && RunFrom(s, more).value.at == DelTimer
    ensures var t := RunFrom(s, more).value;
            && Inv(t) && |more| + StepsLeft(t) <= StepsLeft(s) + 5 * Firings(more) <= 7 + 5 * Firings(more)
            && (Next(t, Module(true)).Some? <==> t.callback == Resting)
            && (t.callback != Resting ==> Next(t, QueueWork).Some? || Next(t, Rearm).Some?)
  {
    if more != [] {
      var front, step := more[..|more| - 1], more[|more| - 1];
      var t := RunFrom(s, front).value;
      UnloadGoesForward(s, more);
      TimerDeletionWaits(s, front);
      DelTimerCost(t, step);
    }
  }

  lemma FromDelTimer(s: State, step: Step)
    requires s.at == DelTimer && Next(s, step).Some?
    ensures Next(s, step).value.at == if step.Module? then Flush else DelTimer
  {
  }

  lemma OneStep(s: State, step: Step)
    ensures RunFrom(s, [step]) == Next(s, step)
  {
    assert [step][..0] == [];
  }

  /** The unload never goes back to an earlier statement. */
  lemma {:induction false} UnloadGoesForward(s: State, more: seq<Step>)
    requires Inv(s) && s.at == DelTimer && RunFrom(s, more).Some?
    ensures var t := RunFrom(s, more).value; Inv(t) && (t.at == DelTimer || TimerDeleted(t.at))
    ensures RunFrom(s, more).value.at == DelTimer && more != []
            ==> RunFrom(s, more[..|more| - 1]).value.at == DelTimer
  {
    if more != [] {
      var t, step := RunFrom(s, more[..|more| - 1]).value, more[|more| - 1];
      UnloadGoesForward(s, more[..|more| - 1]);
      InvStep(t, step);
      if t.at == DelTimer {
        FromDelTimer(t, step);
      } else {
        OneStep(t, step);
        TimerStaysDeleted(t, [step]);
      }
    }
  }

  /** No agent waits forever on a stuck one: unless the module is gone, some step can happen. */
  lemma NeverStuck(s: State, run: seq<Step>)
    requires Reachable(s, run) && !Gone(s)
    ensures Next(s, Module(true)).Some? || Next(s, QueueWork).Some? || Next(s, Rearm).Some?
            || Next(s, WorkStarts).Some? || Next(s, WorkEnds).Some?
  {
    InvHolds(s, run);
  }
}
