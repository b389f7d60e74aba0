/** The nested workload contexts of integrations/uroam/core.py over the global configuration object. */
module WorkloadContext {

  datatype Settings = Settings(workload: string, priority: string)

  /** Configuration objects are shared and mutable: numbers name the objects, current is the global _config. */
  datatype State = State(objects: map<nat, Settings>, current: nat)

  datatype Kind = Ai | Inference | Training | Gaming

  function KindSettings(k: Kind): Settings {
    match k
    case Ai => Settings("ai", "P2")
    case Inference => Settings("inference", "P0")
    case Training => Settings("training", "P2")
    case Gaming => Settings("gaming", "P1")
  }

  /**
   * What client code does; Try catches whatever leaves its body. set_config brings in an object, known
   * already or new with some settings.
   */
  datatype Command =
    | SetPriority(priority: string)
    | SetWorkload(workload: string)
    | SetConfig(id: nat, initial: Settings)
    | Raise
    | Try(body: seq<Command>)
    | With(kind: Kind, body: seq<Command>)

  predicate Valid(st: State) { st.current in st.objects }

  function Now(st: State): Settings
    requires Valid(st)
  {
    st.objects[st.current]
  }

  function Put(st: State, s: Settings): State {
    st.(objects := st.objects[st.current := s])
  }

  function Switch(st: State, id: nat, initial: Settings): (r: State)
    ensures Valid(r)
  {
    State(if id in st.objects then st.objects else st.objects[id := initial], id)
  }

  /** The state after a command, and whether an exception leaves it. */
  function Do(c: Command, st: State): (r: (State, bool))
    requires Valid(st)
    ensures Valid(r.0)
    decreases c, 0
  {
    match c
    case SetPriority(p) => (Put(st, Now(st).(priority := p)), false)
    case SetWorkload(w) => (Put(st, Now(st).(workload := w)), false)
    case SetConfig(id, initial) => (Switch(st, id, initial), false)
    case Raise => (st, true)
    case Try(body) => (DoAll(body, st).0, false)
    case With(k, body) =>
      var inner := DoAll(body, Put(st, KindSettings(k)));
      (Put(inner.0, Now(st)), inner.1)
  }

  function DoAll(cs: seq<Command>, st: State): (r: (State, bool))
    requires Valid(st)
    ensures Valid(r.0)
    decreases cs, 1
  {
    if cs == [] then (st, false)
    else
      var first := Do(cs[0], st);
      if first.1 then first else DoAll(cs[1..], first.0)
  }

  // ----- laws -----

  lemma ContextRestores(k: Kind, body: seq<Command>, st: State)
    requires Valid(st)
    ensures Now(Do(With(k, body), st).0) == Now(st)
  {
  }

  /** Commands that only nest contexts, raise and catch. */
  predicate OnlyContexts(cs: seq<Command>) {
    forall c :: c in cs ==> c.Raise? || ((c.With? || c.Try?) && OnlyContexts(c.body))
  }

  /** Then nothing at all is changed, for any depth of nesting and wherever an exception occurs. */
  lemma {:induction false} OnlyContextsChangeNothing(cs: seq<Command>, st: State)
    requires Valid(st) && OnlyContexts(cs)
    ensures DoAll(cs, st).0 == st
    decreases cs
  {
    if cs != [] {
      var c := cs[0];
      assert c in cs;
      if c.With? {
        OnlyContextsChangeNothing(c.body, Put(st, KindSettings(c.kind)));
        assert Put(Put(st, KindSettings(c.kind)), Now(st)) == st;
      } else if c.Try? {
        OnlyContextsChangeNothing(c.body, st);
      }
      OnlyContextsChangeNothing(cs[1..], st);
    }
  }

  /** The objects a program can name besides the current one. */
  predicate Mentions(cs: seq<Command>, id: nat) {
    exists c :: c in cs && ((c.SetConfig? && c.id == id) || ((c.With? || c.Try?) && Mentions(c.body, id)))
  }

  /** No program touches an object that is neither current nor brought in by set_config. */
  lemma {:induction false} OthersUntouched(cs: seq<Command>, st: State, id: nat)
    requires Valid(st) && id != st.current && !Mentions(cs, id)
    ensures var end := DoAll(cs, st).0;
            end.current != id && (id in end.objects <==> id in st.objects)
            && (id in st.objects ==> end.objects[id] == st.objects[id])
    decreases cs
  {
    if cs != [] {
      var c := cs[0];
      assert c in cs;
      if c.With? {
        OthersUntouched(c.body, Put(st, KindSettings(c.kind)), id);
      } else if c.Try? {
        OthersUntouched(c.body, st, id);
      }
      var first := Do(c, st);
      if !first.1 {
        assert forall d :: d in cs[1..] ==> d in cs;
        OthersUntouched(cs[1..], first.0, id);
      }
    }
  }

  /** No object ever disappears. */
  lemma {:induction false} ObjectsStay(cs: seq<Command>, st: State)
    requires Valid(st)
    ensures st.objects.Keys <= DoAll(cs, st).0.objects.Keys
    decreases cs
  {
    if cs != [] {
      var c := cs[0];
      if c.With? {
        ObjectsStay(c.body, Put(st, KindSettings(c.kind)));
      } else if c.Try? {
        ObjectsStay(c.body, st);
      }
      var first := Do(c, st);
      if !first.1 {
        ObjectsStay(cs[1..], first.0);
      }
    }
  }

  // ----- exceptions -----

  lemma {:induction false} InSequence(a: seq<Command>, b: seq<Command>, st: State)
    requires Valid(st)
    ensures DoAll(a + b, st) == if DoAll(a, st).1 then DoAll(a, st) else DoAll(b, DoAll(a, st).0)
    decreases |a|
  {
    if a == [] {
      assert a + b == b;
    } else {
      assert (a + b)[0] == a[0] && (a + b)[1..] == a[1..] + b;
      var first := Do(a[0], st);
      if !first.1 {
        InSequence(a[1..], b, first.0);
      }
    }
  }

  /** cs inside contexts of these kinds, the first one outermost. */
  function Nested(kinds: seq<Kind>, cs: seq<Command>): seq<Command> {
    if kinds == [] then cs else [With(kinds[0], Nested(kinds[1..], cs))]
  }

  lemma {:induction false} RaiseUnwinds(kinds: seq<Kind>, skipped: seq<Command>, st: State)
    requires Valid(st)
    ensures DoAll(Nested(kinds, [Raise] + skipped), st) == (st, true)
  {
    if kinds == [] {
      assert ([Raise] + skipped)[0] == Raise;
    } else {
      var body := Nested(kinds[1..], [Raise] + skipped);
      RaiseUnwinds(kinds[1..], skipped, Put(st, KindSettings(kinds[0])));
      var inner := Put(st, KindSettings(kinds[0]));
      assert Put(inner, Now(st)).objects == st.objects;
      assert Do(With(kinds[0], body), st) == (st, true);
    }
  }

  /**
   * An exception passes through any number of contexts, each of which is undone, and skips all that
   * follows, up to the nearest handler; from there the program goes on.
   */
  lemma RaisePassesContexts(kinds: seq<Kind>, skipped: seq<Command>, after: seq<Command>, st: State)
    requires Valid(st)
    ensures DoAll(Nested(kinds, [Raise] + skipped) + after, st) == (st, true)
    ensures DoAll([Try(Nested(kinds, [Raise] + skipped))] + after, st) == DoAll(after, st)
  {
    var nest := Nested(kinds, [Raise] + skipped);
    RaiseUnwinds(kinds, skipped, st);
    InSequence(nest, after, st);
    var handled := [Try(nest)] + after;
    assert handled[0] == Try(nest) && handled[1..] == after;
  }

  // ----- which object a program ends on, read off its text -----

  /** The object current after a program that starts on current, and whether an exception leaves it. */
  function Ends(cs: seq<Command>, current: nat): (nat, bool)
    decreases cs, 1
  {
    if cs == [] then (current, false)
    else
      var first := EndsOne(cs[0], current);
      if first.1 then first else Ends(cs[1..], first.0)
  }

  function EndsOne(c: Command, current: nat): (nat, bool)
    decreases c, 0
  {
    match c
    case SetConfig(id, _) => (id, false)
    case Raise => (current, true)
    case Try(body) => (Ends(body, current).0, false)
    case With(_, body) => Ends(body, current)
    case _ => (current, false)
  }

  /** No settings, no other object and no context can influence that. */
  lemma {:induction false} EndsIsRun(cs: seq<Command>, st: State)
    requires Valid(st)
    ensures var end := DoAll(cs, st); (end.0.current, end.1) == Ends(cs, st.current)
    decreases cs
  {
    if cs != [] {
      var c := cs[0];
      if c.With? {
        EndsIsRun(c.body, Put(st, KindSettings(c.kind)));
      } else if c.Try? {
        EndsIsRun(c.body, st);
      }
      var first := Do(c, st);
      if !first.1 {
        EndsIsRun(cs[1..], first.0);
      }
    }
  }

  /** The object that was current when a context was entered has its own settings back afterwards. */
  predicate Restored(k: Kind, body: seq<Command>, st: State)
    requires Valid(st)
  {
    var end := Do(With(k, body), st).0;
    st.current in end.objects && end.objects[st.current] == Now(st)
  }

  /** What the body leaves on that object. It starts from the kind's settings, so those at entry do not matter. */
  function LeftBehind(k: Kind, body: seq<Command>, st: State): Settings
    requires Valid(st)
  {
    var inner := DoAll(body, Put(st, KindSettings(k))).0;
    ObjectsStay(body, Put(st, KindSettings(k)));
    inner.objects[st.current]
  }

  /**
   * If the body ends on the object current at entry, any settings come back. If it ends on another
   * one, only a single value of the settings does: the one the body leaves behind anyway.
   */
  lemma EntryObjectRestored(k: Kind, body: seq<Command>, st: State, s: Settings)
    requires Valid(st)
    ensures Restored(k, body, Put(st, s)) <==> Ends(body, st.current).0 == st.current || s == LeftBehind(k, body, st)
  {
    var entered := Put(st, KindSettings(k));
    assert Put(Put(st, s), KindSettings(k)) == entered;
    EndsIsRun(body, entered);
    ObjectsStay(body, entered);
  }

  /** A context restores the entry object whatever settings it has exactly if the text of its body ends on it. */
  lemma AlwaysRestoredIffEndsOnEntry(k: Kind, body: seq<Command>, st: State)
    requires Valid(st)
    ensures (forall s: Settings :: Restored(k, body, Put(st, s))) <==> Ends(body, st.current).0 == st.current
  {
    forall s: Settings
      ensures Restored(k, body, Put(st, s)) <==> Ends(body, st.current).0 == st.current || s == LeftBehind(k, body, st)
    {
      EntryObjectRestored(k, body, st, s);
    }
    var left := LeftBehind(k, body, st);
    var other := Settings(if left.workload == "" then "ai" else "", left.priority);
    assert Restored(k, body, Put(st, other)) ==> Ends(body, st.current).0 == st.current;
  }

  predicate KeepsConfig(cs: seq<Command>) {
    forall c :: c in cs ==> !c.SetConfig? && (c.With? || c.Try? ==> KeepsConfig(c.body))
  }

  lemma {:induction false} OnlyCurrentChanges(cs: seq<Command>, st: State)
    requires Valid(st) && KeepsConfig(cs)
    ensures DoAll(cs, st).0 == Put(st, Now(DoAll(cs, st).0))
    decreases cs
  {
    if cs == [] {
      assert Put(st, Now(st)) == st;
    } else {
      var c := cs[0];
      assert c in cs;
      if c.With? {
        OnlyCurrentChanges(c.body, Put(st, KindSettings(c.kind)));
      } else if c.Try? {
        OnlyCurrentChanges(c.body, st);
      }
      var first := Do(c, st);
      assert first.0 == Put(st, Now(first.0));
      if !first.1 {
        OnlyCurrentChanges(cs[1..], first.0);
      }
    }
  }

  /** Without set_config a context undoes everything its body did, setters, nested contexts and exceptions included. */
  lemma ContextUndoesBody(k: Kind, body: seq<Command>, st: State)
    requires Valid(st) && KeepsConfig(body)
    ensures Do(With(k, body), st).0 == st
  {
    OnlyCurrentChanges(body, Put(st, KindSettings(k)));
    var inner := DoAll(body, Put(st, KindSettings(k))).0;
    assert Put(inner, Now(st)).objects == st.objects;
  }

  /**
   * Replacing the configuration inside a context leaves the context's settings on the old object for
   * good, and gives the new one those the old one had. Nothing is lost only if they were the same.
   */
  lemma ReplacedObjectKeepsContext(k: Kind, st: State, id: nat, initial: Settings)
    requires Valid(st) && id != st.current
    ensures var end := Do(With(k, [SetConfig(id, initial)]), st).0;
            && st.current in end.objects && id in end.objects && end.objects[id] == Now(st)
            && end.objects[st.current] == match k { case Ai => Settings("ai", "P2")
                                                    case Inference => Settings("inference", "P0")
                                                    case Training => Settings("training", "P2")
                                                    case Gaming => Settings("gaming", "P1") }
    ensures Restored(k, [SetConfig(id, initial)], st) <==> Now(st) == KindSettings(k)
  {
    var entered := Put(st, KindSettings(k));
    assert [SetConfig(id, initial)][1..] == [];
    assert DoAll([SetConfig(id, initial)], entered) == DoAll([], Switch(entered, id, initial));
  }

  // ----- the global state -----

  class Api {
    var objects: map<nat, Settings>
    var config: nat

    ghost function Current(): State
      reads this
    {
      State(objects, config)
    }

    constructor (id: nat, initial: Settings)
      ensures Current() == State(map[id := initial], id)
    {
      objects, config := map[id := initial], id;
    }

    method SetPriority(priority: string)
      requires Valid(Current())
      modifies this
      ensures Current() == Do(Command.SetPriority(priority), old(Current())).0
      ensures config == old(config)
      ensures objects == old(objects)[config := Settings(old(objects[config].workload), priority)]
    {
      objects := objects[config := objects[config].(priority := priority)];
    }

    method SetWorkloadType(workload: string)
      requires Valid(Current())
      modifies this
      ensures Current() == Do(Command.SetWorkload(workload), old(Current())).0
      ensures config == old(config)
      ensures objects == old(objects)[config := Settings(workload, old(objects[config].priority))]
    {
      objects := objects[config := objects[config].(workload := workload)];
    }

    method SetConfig(id: nat, initial: Settings)
      requires Valid(Current())
      modifies this
      ensures Current() == Do(Command.SetConfig(id, initial), old(Current())).0
      ensures config == id && objects == if id in old(objects) then old(objects) else old(objects)[id := initial]
    {
      if id !in objects {
        objects := objects[id := initial];
      }
      config := id;
    }

    /** The four context managers: save, set both, run the body, restore both in any case. */
    method RunContext(k: Kind, body: seq<Command>) returns (raised: bool)
      requires Valid(Current())
      modifies this
      ensures (Current(), raised) == Do(With(k, body), old(Current()))
      ensures Now(Current()) == old(Now(Current()))
      decreases With(k, body), 0
    {
      var oldWorkload, oldPriority := objects[config].workload, objects[config].priority;
      SetWorkloadType(KindSettings(k).workload);
      SetPriority(KindSettings(k).priority);
      assert Current().objects == Put(old(Current()), KindSettings(k)).objects;
      raised := RunAll(body);
      ghost var inner := Current();
      SetWorkloadType(oldWorkload);
      SetPriority(oldPriority);
      assert Current().objects == Put(inner, Settings(oldWorkload, oldPriority)).objects;
      ContextRestores(k, body, old(Current()));
    }

    method RunAll(cs: seq<Command>) returns (raised: bool)
      requires Valid(Current())
      modifies this
      ensures (Current(), raised) == DoAll(cs, old(Current()))
      decreases cs, 1
    {
      if cs == [] {
        return false;
      }
      match cs[0] {
        case SetPriority(p) => SetPriority(p);
        case SetWorkload(w) => SetWorkloadType(w);
        case SetConfig(id, initial) => SetConfig(id, initial);
        case Raise => return true;
        case Try(body) =>
          var _ := RunAll(body);
        case With(k, body) =>
          raised := RunContext(k, body);
          if raised {
            return;
          }
      }
      raised := RunAll(cs[1..]);
    }
  }
}
