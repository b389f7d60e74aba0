/** classifyProcess, containsAny and the process part of collectSystemState of daemon/main.go. */
module ProcessClassifier {
  import opened Options
  import opened Substring

  datatype Workload = General | AIInference | AITraining | Gaming | Background

  datatype ProcessInfo = ProcessInfo(pid: int, name: string, rss: nat, swap: nat, workload: Workload, priority: int)

  datatype Memory = Memory(rss: nat, swap: nat)

  /** What the process library answers about one process; every query can fail, the name is asked twice. */
  datatype Reading = Reading(pid: int, memory: Option<Memory>, name: Option<string>,
                             nameAgain: Option<string>, cmdline: Option<string>)

  const PRIORITY_P0 := 0
  const PRIORITY_P1 := 1
  const PRIORITY_P2 := 2

  const PYTHONS: seq<string> := ["python", "python3", "python3.10", "python3.11", "python3.12"]
  const INFERENCE: seq<string> :=
    ["torch", "tensorflow", "llama", "transformers", "inference", "ollama", "llamacpp", "llama.cpp", "llm"]
  const TRAINING: seq<string> := ["train", "fit", "epoch", "fine-tune", "finetune", "training"]
  const LAUNCHERS: seq<string> :=
    ["steam", "steamwebhelper", "proton", "wine", "wine64", "winedevice.exe", "wine64-preloader", "gamescope"]
  const DESKTOP: seq<string> :=
    ["gnome-shell", "kwin", "Xorg", "X11", "sway", "hyprland", "weston", "compton", "picom"]
  const CREATIVE: seq<string> := ["blender", "gimp", "kdenlive", "obs", "ffmpeg", "handbrake"]
  const SERVICES: seq<string> := ["systemd", "systemd-journal", "dbus-daemon", "NetworkManager", "polkitd", "udevd"]
  const GAME_MARKS: seq<string> := ["exe", "x86_64", "linux64", "game"]
  const STEAM: seq<string> := ["steam"]

  /** containsAny: the hand-written search decides exactly substring membership. */
  method ContainsAny(s: string, subs: seq<string>) returns (found: bool)
    ensures found <==> OccursAny(s, subs)
  {
    for k := 0 to |subs|
      invariant forall j :: 0 <= j < k ==> !Occurs(s, subs[j])
    {
      var sub := subs[k];
      if |sub| > |s| {
        continue;
      }
      for i := 0 to |s| - |sub| + 1
        invariant forall j :: 0 <= j < i ==> !OccursAt(s, sub, j)
      {
        if s[i..i + |sub|] == sub {
          assert OccursAt(s, sub, i);
          return true;
        }
      }
    }
    return false;
  }

  function GameByName(name: string): (Workload, int) {
    if OccursAny(name, GAME_MARKS) && !OccursAny(name, STEAM) then (Gaming, PRIORITY_P1) else (General, PRIORITY_P2)
  }

  function Classify(name: Option<string>, cmdline: Option<string>): (Workload, int) {
    match name
    case None => (General, PRIORITY_P2)
    case Some(n) =>
      if n in PYTHONS then
        if cmdline.Some? && OccursAny(cmdline.value, INFERENCE) then (AIInference, PRIORITY_P0)
        else if cmdline.Some? && OccursAny(cmdline.value, TRAINING) then (AITraining, PRIORITY_P1)
        else GameByName(n)
      else if n in LAUNCHERS then (Gaming, PRIORITY_P1)
      else if n in DESKTOP then (Background, PRIORITY_P0)
      else if n in CREATIVE then (General, PRIORITY_P1)
      else if n in SERVICES then (Background, PRIORITY_P1)
      else GameByName(n)
  }

  method ClassifyProcess(name: Option<string>, cmdline: Option<string>) returns (w: Workload, priority: int)
    ensures (w, priority) == Classify(name, cmdline)
    ensures priority == PRIORITY_P0 || priority == PRIORITY_P1 || priority == PRIORITY_P2
    ensures priority == PRIORITY_P2 ==> w == General
    ensures var n := if name.Some? then name.value else "";
            var python := name.Some? && n in PYTHONS;
            var inference := python && cmdline.Some? && OccursAny(cmdline.value, INFERENCE);
            var training := python && !inference && cmdline.Some? && OccursAny(cmdline.value, TRAINING);
            var named := name.Some? && !python;
            var launcher := named && n in LAUNCHERS;
            var desktop := named && !launcher && n in DESKTOP;
            var creative := named && !launcher && !desktop && n in CREATIVE;
            var service := named && !launcher && !desktop && !creative && n in SERVICES;
            var marked := name.Some? && !inference && !training && !launcher && !desktop && !creative && !service
                          && OccursAny(n, GAME_MARKS) && !OccursAny(n, STEAM);
            && (w == AIInference <==> inference) && (w == AITraining <==> training)
            && (w == Gaming <==> launcher || marked) && (w == Background <==> desktop || service)
            && (priority == 0 <==> inference || desktop)
            && (priority == 1 <==> training || launcher || marked || creative || service)
  {
    if name.None? {
      return General, PRIORITY_P2;
    }
    var n := name.value;
    if n in PYTHONS {
      if cmdline.Some? {
        var inference := ContainsAny(cmdline.value, INFERENCE);
        if inference {
          return AIInference, PRIORITY_P0;
        }
        var training := ContainsAny(cmdline.value, TRAINING);
        if training {
          return AITraining, PRIORITY_P1;
        }
      }
    } else if n in LAUNCHERS {
      return Gaming, PRIORITY_P1;
    } else if n in DESKTOP {
      return Background, PRIORITY_P0;
    } else if n in CREATIVE {
      return General, PRIORITY_P1;
    } else if n in SERVICES {
      return Background, PRIORITY_P1;
    }
    var game := ContainsAny(n, GAME_MARKS);
    if game {
      var steam := ContainsAny(n, STEAM);
      if !steam {
        return Gaming, PRIORITY_P1;
      }
    }
    return General, PRIORITY_P2;
  }

  /** The list a tick works on: processes whose memory and name can be read, in enumeration order. */
  function Collected(readings: seq<Reading>): seq<ProcessInfo> {
    if readings == [] then []
    else
      var front, r := readings[..|readings| - 1], readings[|readings| - 1];
      if r.memory.None? || r.name.None? then Collected(front)
      else
        var c := Classify(r.nameAgain, r.cmdline);
        Collected(front) + [ProcessInfo(r.pid, r.name.value, r.memory.value.rss, r.memory.value.swap, c.0, c.1)]
  }

  lemma CollectedNext(readings: seq<Reading>, r: Reading)
    ensures r.memory.Some? && r.name.Some? ==>
              var c := Classify(r.nameAgain, r.cmdline);
              Collected(readings + [r])
              == Collected(readings) + [ProcessInfo(r.pid, r.name.value, r.memory.value.rss, r.memory.value.swap, c.0, c.1)]
    ensures r.memory.None? || r.name.None? ==> Collected(readings + [r]) == Collected(readings)
  {
    assert (readings + [r])[..|readings|] == readings;
  }

  method CollectProcesses(readings: seq<Reading>) returns (ps: seq<ProcessInfo>)
    ensures ps == Collected(readings)
  {
    ps := [];
    for i := 0 to |readings|
      invariant ps == Collected(readings[..i])
    {
      assert readings[..i + 1][..i] == readings[..i];
      var r := readings[i];
      if r.memory.None? || r.name.None? {
        continue;
      }
      var w, priority := ClassifyProcess(r.nameAgain, r.cmdline);
      ps := ps + [ProcessInfo(r.pid, r.name.value, r.memory.value.rss, r.memory.value.swap, w, priority)];
    }
    assert readings[..|readings|] == readings;
  }

  /** In a collected list AI and gaming processes always have a priority above the default one. */
  lemma {:induction false} CollectedPriorities(readings: seq<Reading>)
    ensures forall p :: p in Collected(readings) ==>
              && 0 <= p.priority <= PRIORITY_P2
              && (p.workload == AIInference || p.workload == AITraining || p.workload == Gaming
                  ==> p.priority <= PRIORITY_P1)
  {
    if readings != [] {
      CollectedPriorities(readings[..|readings| - 1]);
    }
  }
}
