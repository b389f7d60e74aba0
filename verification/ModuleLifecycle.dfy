/**
 * Loading and unloading of kernel/main.c with the subsystems it starts, as staged acquisition and
 * release of resources. Every acquisition may fail; failures are given by a set chosen in advance.
 */
module ModuleLifecycle {

  datatype Resource =
    | ProcDir | ProcStatus | ProcConfig | ProcStats | Kobject | SysfsFile | NetlinkSocket
    | PsiGroup | PsiTrigger | PressureThread
    | FtraceBuffer | MmapProbe | BrkProbe
    | TrackingThread

  const ENOMEM := 12
  const ENODEV := 19

  /**
   * Module parameters, fixed from load to unload, and the environment: whether several NUMA nodes are
   * online, which acquisitions fail, and whether the two attempts to allocate the distance table fail.
   */
  datatype Setup = Setup(enablePressure: bool, enableHooks: bool, enableNuma: bool, useFtrace: bool, multiNode: bool,
                         fails: set<Resource>, tableFails: bool, tableFailsAgain: bool)
  {
    predicate Ok(r: Resource) { r !in fails }

    predicate BaseOk() {
      && Ok(ProcDir) && Ok(ProcStatus) && Ok(ProcConfig) && Ok(ProcStats)
      && Ok(Kobject) && Ok(SysfsFile) && Ok(NetlinkSocket)
    }

    /** The stages before tracking succeed. */
    predicate ReachesTracking() {
      BaseOk() && (enablePressure ==> Ok(PsiGroup) && Ok(PsiTrigger))
    }

    predicate Loads() { ReachesTracking() && Ok(TrackingThread) }

    /** The monitor's thread cannot be started: its other resources are returned, yet success is reported. */
    predicate PressureGone() { enablePressure && !Ok(PressureThread) }

    predicate UsesFtrace() { useFtrace && Ok(FtraceBuffer) }

    predicate UsesProbes() { !UsesFtrace() && Ok(MmapProbe) && Ok(BrkProbe) }

    /** The distance table is allocated by the NUMA stage, or by tracking when that stage was skipped or failed. */
    predicate StageTable() { enableNuma && multiNode && !tableFails }

    predicate HasTable() { StageTable() || (multiNode && !tableFailsAgain) }

    function HookResources(): seq<Resource> {
      if !enableHooks then [] else if UsesFtrace() then [FtraceBuffer] else if UsesProbes() then [MmapProbe, BrkProbe]
      else []
    }

    function PressureResources(): seq<Resource> {
      if !enablePressure || PressureGone() then [] else [PsiGroup, PsiTrigger, PressureThread]
    }

    /** Everything on the stack of a loaded module, oldest first. */
    function Live(): seq<Resource> {
      BASE + PressureResources() + HookResources() + [TrackingThread]
    }
  }

  /** When a load succeeds, and what it then holds, oldest first, by parameters and failures. */
  lemma SetupInValues(s: Setup)
    ensures s.Loads() <==> s.fails !! {ProcDir, ProcStatus, ProcConfig, ProcStats, Kobject, SysfsFile, NetlinkSocket,
                                       TrackingThread}
                           && (s.enablePressure ==> PsiGroup !in s.fails && PsiTrigger !in s.fails)
    ensures s.ReachesTracking() <==> s.fails !! {ProcDir, ProcStatus, ProcConfig, ProcStats, Kobject, SysfsFile,
                                                 NetlinkSocket}
                                     && (s.enablePressure ==> PsiGroup !in s.fails && PsiTrigger !in s.fails)
    ensures s.PressureGone() <==> s.enablePressure && PressureThread in s.fails
    ensures s.HasTable() <==> s.multiNode && ((s.enableNuma && !s.tableFails) || !s.tableFailsAgain)
    ensures s.HookResources() == [FtraceBuffer] <==> s.enableHooks && s.useFtrace && FtraceBuffer !in s.fails
    ensures s.HookResources() == [MmapProbe, BrkProbe]
            <==> s.enableHooks && !(s.useFtrace && FtraceBuffer !in s.fails) && s.fails !! {MmapProbe, BrkProbe}
    ensures s.HookResources() == [FtraceBuffer] || s.HookResources() == [MmapProbe, BrkProbe] || s.HookResources() == []
    ensures s.Live() == [ProcDir, ProcStatus, ProcConfig, ProcStats, Kobject, SysfsFile, NetlinkSocket]
                        + (if s.enablePressure && PressureThread !in s.fails
                           then [PsiGroup, PsiTrigger, PressureThread] else [])
                        + s.HookResources() + [TrackingThread]
  {
  }

  const ENTRIES: seq<Resource> := [ProcDir, ProcStatus, ProcConfig, ProcStats]
  const BASE: seq<Resource> := ENTRIES + [Kobject, SysfsFile, NetlinkSocket]

  /** The stack without its topmost r. */
  function Without(stack: seq<Resource>, r: Resource): seq<Resource> {
    if stack == [] then []
    else if stack[|stack| - 1] == r then stack[..|stack| - 1]
    else Without(stack[..|stack| - 1], r) + [stack[|stack| - 1]]
  }

  lemma WithoutLast(base: seq<Resource>, r: Resource)
    ensures Without(base + [r], r) == base
  {
  }

  lemma WithoutSecond(base: seq<Resource>, a: Resource, b: Resource)
    requires a != b
    ensures Without(base + [a, b], a) == base + [b]
  {
    var s := base + [a, b];
    assert s[..|s| - 1] == base + [a];
    assert (base + [a])[..|base|] == base;
  }

  class UroamModule {
    const setup: Setup
    var enabled: bool
    var procDir: bool
    var procStatus: bool
    var procConfig: bool
    var procStats: bool
    var kobj: bool
    var netlink: bool
    var pressureRunning: bool
    var ftraceBuffer: bool
    var ftraceEnabled: bool
    var mmapHooked: bool
    var brkHooked: bool
    var distanceTable: bool
    var trackingRunning: bool
    /**
     * What is held besides the distance table, which its own pointer keeps, oldest first; whether a
     * release skipped a younger resource; whether one hit a resource not held.
     */
    ghost var stack: seq<Resource>
    ghost var outOfOrder: bool
    ghost var misused: bool

    constructor (setup: Setup)
      ensures this.setup == setup && Pristine()
    {
      this.setup := setup;
      enabled, procDir, procStatus, procConfig, procStats, kobj, netlink := false, false, false, false, false, false, false;
      pressureRunning, ftraceBuffer, ftraceEnabled, mmapHooked, brkHooked := false, false, false, false, false;
      distanceTable, trackingRunning := false, false;
      stack, outOfOrder, misused := [], false, false;
    }

    ghost predicate NothingHooked()
      reads this
    {
      !ftraceBuffer && !ftraceEnabled && !mmapHooked && !brkHooked
    }

    ghost predicate Pristine()
      reads this
    {
      && !procDir && !procStatus && !procConfig && !procStats && !kobj && !netlink
      && !pressureRunning && NothingHooked() && !distanceTable && !trackingRunning
      && stack == [] && !outOfOrder && !misused
    }

    ghost predicate Top(r: Resource)
      reads this
    {
      stack != [] && stack[|stack| - 1] == r
    }

    method Acquire(r: Resource) returns (ok: bool)
      modifies this`stack
      ensures ok == setup.Ok(r)
      ensures stack == if ok then old(stack) + [r] else old(stack)
    {
      ok := setup.Ok(r);
      if ok {
        stack := stack + [r];
      }
    }

    /** Releasing the youngest resource held. */
    method Drop(r: Resource)
      requires Top(r)
      modifies this`stack
      ensures stack == old(stack[..|stack| - 1])
    {
      stack := stack[..|stack| - 1];
    }

    /** Releasing a resource that may be older than others held, or not held at all. */
    method Release(r: Resource)
      modifies this`stack, this`outOfOrder, this`misused
      ensures old(r in stack) ==> stack == Without(old(stack), r) && misused == old(misused)
      ensures old(r in stack) ==> outOfOrder == (old(outOfOrder) || !old(Top(r)))
      ensures old(r !in stack) ==> stack == old(stack) && misused && outOfOrder == old(outOfOrder)
    {
      if r !in stack {
        misused := true;
      } else {
        outOfOrder := outOfOrder || stack[|stack| - 1] != r;
        stack := Without(stack, r);
      }
    }

    // ----- proc and sysfs -----

    method CreateProcEntries() returns (ret: int)
      requires stack == []
      modifies this`procDir, this`procStatus, this`procConfig, this`procStats, this`stack
      ensures ret == 0 || ret == -ENOMEM
      ensures ret == 0 <==> setup.Ok(ProcDir) && setup.Ok(ProcStatus) && setup.Ok(ProcConfig) && setup.Ok(ProcStats)
      ensures ret == 0 ==> stack == ENTRIES && procDir && procStatus && procConfig && procStats
      ensures ret < 0 ==> stack == []
    {
      procDir := Acquire(ProcDir);
      if !procDir {
        return -ENOMEM;
      }
      procStatus := Acquire(ProcStatus);
      if !procStatus {
        Drop(ProcDir);
        return -ENOMEM;
      }
      procConfig := Acquire(ProcConfig);
      if !procConfig {
        Drop(ProcStatus);
        assert stack == [ProcDir];
        Drop(ProcDir);
        return -ENOMEM;
      }
      procStats := Acquire(ProcStats);
      if !procStats {
        Drop(ProcConfig);
        assert stack == [ProcDir, ProcStatus];
        Drop(ProcStatus);
        assert stack == [ProcDir];
        Drop(ProcDir);
        return -ENOMEM;
      }
      return 0;
    }

    method RemoveProcEntries()
      requires procDir && procStatus && procConfig && procStats && stack == ENTRIES
      modifies this`stack
      ensures stack == []
    {
      if procStats { Drop(ProcStats); }
      if procConfig { Drop(ProcConfig); }
      if procStatus { Drop(ProcStatus); }
      if procDir { Drop(ProcDir); }
      assert stack == [];
    }

    method CreateSysfsEntries() returns (ret: int)
      modifies this`kobj, this`stack
      ensures ret <= 0 && (ret == 0 <==> setup.Ok(Kobject) && setup.Ok(SysfsFile))
      ensures ret == 0 ==> stack == old(stack) + [Kobject, SysfsFile] && kobj
      ensures ret < 0 ==> stack == old(stack)
    {
      kobj := Acquire(Kobject);
      if !kobj {
        return -ENOMEM;
      }
      var file := Acquire(SysfsFile);
      if !file {
        Drop(Kobject);
        return -ENOMEM;
      }
      return 0;
    }

    method RemoveSysfsEntries()
      requires kobj && stack == ENTRIES + [Kobject, SysfsFile]
      modifies this`stack
      ensures stack == ENTRIES
    {
      if kobj {
        Drop(SysfsFile);
        Drop(Kobject);
      }
    }

    // ----- netlink -----

    method NetlinkInit() returns (ret: int)
      modifies this`netlink, this`stack
      ensures ret <= 0 && (ret == 0 <==> setup.Ok(NetlinkSocket)) && netlink == (ret == 0)
      ensures stack == if ret == 0 then old(stack) + [NetlinkSocket] else old(stack)
    {
      netlink := Acquire(NetlinkSocket);
      return if netlink then 0 else -ENOMEM;
    }

    method NetlinkExit()
      requires netlink && stack == BASE
      modifies this`netlink, this`stack
      ensures stack == ENTRIES + [Kobject, SysfsFile]
    {
      if netlink {
        Drop(NetlinkSocket);
        netlink := false;
      }
    }

    // ----- pressure monitor -----

    /** Returns the result of creating the trigger even when only the thread failed to start. */
    method PressureInit() returns (ret: int)
      requires stack == BASE && !pressureRunning
      modifies this`pressureRunning, this`stack
      ensures ret <= 0 && (ret == 0 <==> setup.Ok(PsiGroup) && setup.Ok(PsiTrigger))
      ensures stack == if ret == 0 && setup.Ok(PressureThread) then BASE + [PsiGroup, PsiTrigger, PressureThread] else BASE
      ensures pressureRunning == (ret == 0 && setup.Ok(PressureThread))
    {
      var group := Acquire(PsiGroup);
      if !group {
        return -ENOMEM;
      }
      var trigger := Acquire(PsiTrigger);
      if !trigger {
        Drop(PsiGroup);
        return -ENOMEM;
      }
      ret := 0;
      pressureRunning := true;
      var thread := Acquire(PressureThread);
      if !thread {
        pressureRunning := false;
        Drop(PsiTrigger);
        Drop(PsiGroup);
      }
    }

    method PressureExit()
      requires pressureRunning ==> stack == BASE + [PsiGroup, PsiTrigger, PressureThread]
      requires !pressureRunning ==> stack == BASE
      modifies this`pressureRunning, this`stack, this`outOfOrder, this`misused
      ensures stack == BASE && !pressureRunning && outOfOrder == old(outOfOrder)
      ensures misused == (old(misused) || !old(pressureRunning))
    {
      if pressureRunning {
        pressureRunning := false;
        Drop(PressureThread);
        assert stack == BASE + [PsiGroup, PsiTrigger];
        WithoutLast(BASE + [PsiGroup], PsiTrigger);
        WithoutLast(BASE, PsiGroup);
      }
      Release(PsiTrigger);
      assert old(pressureRunning) ==> stack == BASE + [PsiGroup];
      Release(PsiGroup);
    }

    // ----- allocation hooks -----

    method FtraceInit() returns (ret: int)
      requires !ftraceBuffer && !ftraceEnabled
      modifies this`ftraceBuffer, this`ftraceEnabled, this`stack
      ensures ret <= 0 && (ret == 0 <==> setup.UsesFtrace())
      ensures ftraceEnabled == ftraceBuffer == (ret == 0)
      ensures stack == if ret == 0 then old(stack) + [FtraceBuffer] else old(stack)
    {
      if !setup.useFtrace {
        return -ENODEV;
      }
      ftraceBuffer := Acquire(FtraceBuffer);
      if !ftraceBuffer {
        return -ENOMEM;
      }
      ftraceEnabled := true;
      return 0;
    }

    method InstallKprobes() returns (ret: int)
      requires !mmapHooked && !brkHooked
      modifies this`mmapHooked, this`brkHooked, this`stack
      ensures ret <= 0
      ensures setup.useFtrace && ftraceEnabled ==> ret == 0 && stack == old(stack) && !mmapHooked && !brkHooked
      ensures !(setup.useFtrace && ftraceEnabled) ==>
                && (ret == 0 <==> setup.Ok(MmapProbe) && setup.Ok(BrkProbe))
                && mmapHooked == brkHooked == (ret == 0)
                && stack == if ret == 0 then old(stack) + [MmapProbe, BrkProbe] else old(stack)
    {
      if setup.useFtrace && ftraceEnabled {
        return 0;
      }
      var mmap := Acquire(MmapProbe);
      if !mmap {
        return -ENODEV;
      }
      mmapHooked := true;
      var brk := Acquire(BrkProbe);
      if !brk {
        Drop(MmapProbe);
        mmapHooked := false;
        return -ENODEV;
      }
      brkHooked := true;
      return 0;
    }

    method EnableHookTracing() returns (ret: int)
      requires NothingHooked()
      modifies this`ftraceBuffer, this`ftraceEnabled, this`mmapHooked, this`brkHooked, this`stack
      ensures ret <= 0 && (ret == 0 <==> setup.UsesFtrace() || setup.UsesProbes())
      ensures HookedAs(if setup.UsesFtrace() then [FtraceBuffer]
                       else if setup.UsesProbes() then [MmapProbe, BrkProbe] else [])
      ensures stack == old(stack) + if setup.UsesFtrace() then [FtraceBuffer]
                                    else if setup.UsesProbes() then [MmapProbe, BrkProbe] else []
    {
      if setup.useFtrace {
        ret := FtraceInit();
        if ret == 0 {
          return;
        }
      }
      ret := InstallKprobes();
    }

    /** The flags agree with the hook resources held. */
    ghost predicate HookedAs(hooks: seq<Resource>)
      reads this
    {
      && (hooks == [] || hooks == [FtraceBuffer] || hooks == [MmapProbe, BrkProbe])
      && (ftraceBuffer <==> hooks == [FtraceBuffer]) && (ftraceEnabled <==> ftraceBuffer)
      && (mmapHooked <==> hooks == [MmapProbe, BrkProbe]) && (brkHooked <==> mmapHooked)
    }

    /**
     * uroam_hooks_init ends in exactly one of three ways: the ftrace buffer alone, both kprobes, or
     * nothing. The last one is not an error.
     */
    method HooksInit() returns (ret: int)
      requires NothingHooked() && setup.enableHooks
      modifies this`ftraceBuffer, this`ftraceEnabled, this`mmapHooked, this`brkHooked, this`stack
      ensures ret == 0 && HookedAs(setup.HookResources())
      ensures stack == old(stack) + setup.HookResources()
    {
      ret := EnableHookTracing();
      if ret < 0 {
        return 0;
      }
    }

    /** uroam_hooks_exit removes the mmap probe first, so two probes go in the order they came. */
    method HooksExit(ghost base: seq<Resource>)
      requires HookedAs(setup.HookResources()) && stack == base + setup.HookResources()
      modifies this`ftraceBuffer, this`ftraceEnabled, this`mmapHooked, this`brkHooked,
               this`stack, this`outOfOrder, this`misused
      ensures stack == base && NothingHooked() && misused == old(misused)
      ensures outOfOrder == (old(outOfOrder) || setup.HookResources() == [MmapProbe, BrkProbe])
    {
      if ftraceEnabled {
        if ftraceBuffer {
          Drop(FtraceBuffer);
          ftraceBuffer := false;
        }
        ftraceEnabled := false;
      }
      if mmapHooked {
        WithoutSecond(base, MmapProbe, BrkProbe);
        assert stack == base + [MmapProbe, BrkProbe] && MmapProbe in [MmapProbe, BrkProbe];
        Release(MmapProbe);
        mmapHooked := false;
      }
      if brkHooked {
        Drop(BrkProbe);
        brkHooked := false;
      }
    }

    // ----- NUMA and tracking -----

    /** fails: whether this attempt to allocate the table fails. A table already there is kept. */
    method NumaInit(fails: bool) returns (ret: int)
      modifies this`distanceTable
      ensures ret == 0
      ensures distanceTable == (old(distanceTable) || (setup.multiNode && !fails))
    {
      if setup.multiNode && !distanceTable {
        distanceTable := !fails;
      }
      return 0;
    }

    method NumaExit()
      modifies this`distanceTable
      ensures !distanceTable
    {
      if distanceTable {
        distanceTable := false;
      }
    }

    /** Starts the thread and sets up NUMA once more, whether or not enable_numa_aware is set. */
    method TrackingInit() returns (ret: int)
      modifies this`trackingRunning, this`distanceTable, this`stack
      ensures ret <= 0 && (ret == 0 <==> setup.Ok(TrackingThread)) && trackingRunning == (ret == 0)
      ensures stack == if ret == 0 then old(stack) + [TrackingThread] else old(stack)
      ensures distanceTable == (old(distanceTable) || (ret == 0 && setup.multiNode && !setup.tableFailsAgain))
    {
      trackingRunning := true;
      var thread := Acquire(TrackingThread);
      if !thread {
        trackingRunning := false;
        return -ENOMEM;
      }
      var _ := NumaInit(setup.tableFailsAgain);
      return 0;
    }

    method TrackingExit()
      requires trackingRunning && Top(TrackingThread)
      modifies this`trackingRunning, this`stack
      ensures !trackingRunning && stack == old(stack[..|stack| - 1])
    {
      if trackingRunning {
        trackingRunning := false;
        Drop(TrackingThread);
      }
    }

    // ----- load and unload -----

    /** The stages at the end of the release ladder, from the hooks down. */
    method Unwind()
      requires netlink && kobj && procDir && procStatus && procConfig && procStats
      requires stack == BASE + setup.PressureResources() + setup.HookResources()
      requires pressureRunning == (setup.PressureResources() != [])
      requires if setup.enableHooks then HookedAs(setup.HookResources()) else NothingHooked()
      modifies this
      ensures stack == [] && distanceTable == old(distanceTable) && enabled == old(enabled)
      ensures misused == (old(misused) || setup.PressureGone())
      ensures outOfOrder == (old(outOfOrder) || setup.HookResources() == [MmapProbe, BrkProbe])
    {
      if setup.enableHooks {
        HooksExit(BASE + setup.PressureResources());
      }
      if setup.enablePressure {
        PressureExit();
      }
      NetlinkExit();
      RemoveSysfsEntries();
      RemoveProcEntries();
    }

    /** The first three stages with the last three rungs of the release ladder. */
    method InitBase() returns (ret: int)
      requires stack == []
      modifies this`procDir, this`procStatus, this`procConfig, this`procStats, this`kobj, this`netlink, this`stack
      ensures ret <= 0 && (ret == 0 <==> setup.BaseOk())
      ensures ret == 0 ==> stack == BASE && procDir && procStatus && procConfig && procStats && kobj && netlink
      ensures ret < 0 ==> stack == []
    {
      ret := CreateProcEntries();
      if ret < 0 {
        return;
      }
      ret := CreateSysfsEntries();
      if ret < 0 {
        RemoveProcEntries();
        return;
      }
      ret := NetlinkInit();
      if ret < 0 {
        RemoveSysfsEntries();
        RemoveProcEntries();
        return;
      }
    }

    /** Hooks, NUMA and tracking, with the rungs of the ladder a failure there runs through. */
    method InitRest() returns (ret: int)
      requires netlink && kobj && procDir && procStatus && procConfig && procStats
      requires NothingHooked() && !distanceTable
      requires stack == BASE + setup.PressureResources()
      requires pressureRunning == (setup.PressureResources() != [])
      modifies this
      ensures enabled == old(enabled) && ret <= 0 && (ret == 0 <==> setup.Ok(TrackingThread))
      ensures ret == 0 ==> Loaded() && misused == old(misused) && outOfOrder == old(outOfOrder)
      ensures ret < 0 ==> stack == [] && !distanceTable
      ensures ret < 0 ==> misused == (old(misused) || setup.PressureGone())
      ensures ret < 0 ==> outOfOrder == (old(outOfOrder) || setup.HookResources() == [MmapProbe, BrkProbe])
    {
      if setup.enableHooks {
        ret := HooksInit();
      }
      if setup.enableNuma {
        ret := NumaInit(setup.tableFails);
      }
      ret := TrackingInit();
      if ret < 0 {
        if setup.enableNuma {
          NumaExit();
        }
        Unwind();
        return;
      }
    }

    /**
     * uroam_init. It succeeds exactly when every stage that can report failure does not. A failing load
     * holds nothing afterwards; it has released each resource once, and youngest first, exactly unless
     * it failed in the tracking stage with the pressure monitor silently gone or with both kprobes in.
     */
    method Init() returns (ret: int)
      requires Pristine()
      modifies this
      ensures enabled && ret <= 0 && (ret == 0 <==> setup.Loads())
      ensures ret == 0 ==> Loaded() && !misused && !outOfOrder
      ensures ret < 0 ==> stack == [] && !distanceTable
      ensures ret < 0 ==> (misused <==> setup.ReachesTracking() && setup.PressureGone())
      ensures ret < 0 ==> (outOfOrder <==> setup.ReachesTracking() && setup.HookResources() == [MmapProbe, BrkProbe])
    {
      enabled := true;
      ret := InitBase();
      if ret < 0 {
        return;
      }
      if setup.enablePressure {
        ret := PressureInit();
        if ret < 0 {
          NetlinkExit();
          RemoveSysfsEntries();
          RemoveProcEntries();
          return;
        }
      }
      ret := InitRest();
    }

    /** Every pointer and flag of a loaded module agrees with what it holds. */
    ghost predicate Loaded()
      reads this
    {
      && procDir && procStatus && procConfig && procStats && kobj && netlink && trackingRunning
      && stack == setup.Live()
      && pressureRunning == (setup.PressureResources() != [])
      && (if setup.enableHooks then HookedAs(setup.HookResources()) else NothingHooked())
      && distanceTable == setup.HasTable()
    }

    /**
     * uroam_exit gives everything back, once, exactly if the pressure monitor was really running when
     * asked for and no distance table was allocated behind the back of enable_numa_aware. It does so
     * youngest first exactly unless both kprobes are in.
     */
    method Exit()
      requires Loaded() && !misused
      modifies this
      ensures stack == [] && !enabled
      ensures misused <==> setup.PressureGone()
      ensures distanceTable <==> setup.HasTable() && !setup.enableNuma
      ensures outOfOrder <==> old(outOfOrder) || setup.HookResources() == [MmapProbe, BrkProbe]
    {
      enabled := false;
      TrackingExit();
      assert stack == BASE + setup.PressureResources() + setup.HookResources();
      if setup.enableNuma {
        NumaExit();
      }
      Unwind();
    }
  }

  /**
   * Whatever fails, loading and then unloading ends with an empty stack. It is clean, that is, nothing
   * is released twice and the distance table is freed, exactly if a monitor that was asked for does
   * not lose its thread after the early stages succeeded, and a table is allocated only under
   * enable_numa_aware. The releases are youngest first exactly unless the hooks ended up with both
   * kprobes, which go in the order they came.
   */
  method LoadAndUnload(setup: Setup) returns (m: UroamModule)
    ensures fresh(m) && m.setup == setup && m.stack == []
    ensures !m.misused && !m.distanceTable
            <==> (setup.ReachesTracking() ==> !setup.PressureGone())
                 && (setup.Loads() && setup.HasTable() ==> setup.enableNuma)
    ensures m.outOfOrder <==> setup.ReachesTracking() && setup.HookResources() == [MmapProbe, BrkProbe]
  {
    m := new UroamModule(setup);
    var ret := m.Init();
    if ret == 0 {
      m.Exit();
    }
  }
}
