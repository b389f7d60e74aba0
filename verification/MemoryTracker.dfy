/** UROAMMemoryTracker of integrations/uroam/ai_hooks.py. */
module MemoryTracker {
  import opened ReflectedWalk

  datatype Event = Enable | Disable | Alloc(size: int, tag: string) | Free(size: int, tag: string)

  datatype Stats = Stats(totalAllocated: int, totalFreed: int, current: int, allocations: map<string, int>)

  function Get(m: map<string, int>, tag: string): int {
    if tag in m then m[tag] else 0
  }

  // ----- what a trace means -----

  predicate EnabledAfter(trace: seq<Event>) {
    trace != [] &&
    match trace[|trace| - 1]
    case Enable => true
    case Disable => false
    case _ => EnabledAfter(trace[..|trace| - 1])
  }

  /** The allocations and frees that were recorded, that is, issued while the tracker was enabled. */
  function Recorded(trace: seq<Event>): seq<Event> {
    if trace == [] then []
    else
      var before, e := trace[..|trace| - 1], trace[|trace| - 1];
      if (e.Alloc? || e.Free?) && EnabledAfter(before) then Recorded(before) + [e] else Recorded(before)
  }

  function AsStep(e: Event): Step
    requires e.Alloc? || e.Free?
  {
    if e.Alloc? then Up(e.size) else Down(e.size)
  }

  /** The walk of one tag: its recorded events, in order. */
  function StepsOf(events: seq<Event>, tag: string): seq<Step> {
    if events == [] then []
    else
      var before, e := events[..|events| - 1], events[|events| - 1];
      if (e.Alloc? || e.Free?) && e.tag == tag then StepsOf(before, tag) + [AsStep(e)] else StepsOf(before, tag)
  }

  function TotalOf(events: seq<Event>, frees: bool): int {
    if events == [] then 0
    else
      TotalOf(events[..|events| - 1], frees) +
      match events[|events| - 1]
      case Alloc(n, _) => if frees then 0 else n
      case Free(n, _) => if frees then n else 0
      case _ => 0
  }

  /** Everything the clamp swallowed, over all tags. */
  function ClippedOf(events: seq<Event>): int {
    if events == [] then 0
    else
      var before := events[..|events| - 1];
      ClippedOf(before) +
      match events[|events| - 1]
      case Free(n, t) => Max(0, n - Value(StepsOf(before, t)))
      case _ => 0
  }

  /** Some free asked for more than its tag held at that moment. */
  ghost predicate OverFreedAt(events: seq<Event>, i: int) {
    && 0 <= i < |events| && events[i].Free?
    && events[i].size > Value(StepsOf(events[..i], events[i].tag))
  }

  predicate NonNegativeSizes(trace: seq<Event>) {
    forall i :: 0 <= i < |trace| ==> (trace[i].Alloc? || trace[i].Free?) ==> trace[i].size >= 0
  }

  ghost predicate TracksTag(m: map<string, int>, events: seq<Event>, tag: string) {
    && (tag in m <==> StepsOf(events, tag) != [])
    && (tag in m ==> m[tag] == Value(StepsOf(events, tag)))
  }

  /** The table holds exactly the tags seen, each with the value of its walk. */
  ghost predicate Tracks(m: map<string, int>, events: seq<Event>) {
    forall t {:trigger TracksTag(m, events, t)} :: TracksTag(m, events, t)
  }

  lemma TracksGet(m: map<string, int>, events: seq<Event>, tag: string)
    requires Tracks(m, events)
    ensures Get(m, tag) == Value(StepsOf(events, tag))
  {
    assert TracksTag(m, events, tag);
  }

  function Updated(m: map<string, int>, e: Event): map<string, int>
    requires e.Alloc? || e.Free?
  {
    m[e.tag := Move(Get(m, e.tag), AsStep(e))]
  }

  lemma TracksNextAt(m: map<string, int>, events: seq<Event>, e: Event, t: string)
    requires TracksTag(m, events, t) && (e.Alloc? || e.Free?)
    ensures TracksTag(Updated(m, e), events + [e], t)
  {
    assert (events + [e])[..|events|] == events;
    var s := StepsOf(events, t);
    if t == e.tag {
      assert Get(m, t) == Value(s);
      ValueSnoc(s, AsStep(e));
      assert StepsOf(events + [e], t) == s + [AsStep(e)];
    } else {
      assert StepsOf(events + [e], t) == s;
    }
  }

  lemma TracksNext(m: map<string, int>, events: seq<Event>, e: Event)
    requires Tracks(m, events) && (e.Alloc? || e.Free?)
    ensures Tracks(Updated(m, e), events + [e])
  {
    forall t
      ensures TracksTag(Updated(m, e), events + [e], t)
    {
      assert TracksTag(m, events, t);
      TracksNextAt(m, events, e, t);
    }
  }

  /** What one more event does to the enabled flag, the record and the totals. */
  lemma RecordedNext(trace: seq<Event>, e: Event)
    requires e.Alloc? || e.Free?
    ensures EnabledAfter(trace + [e]) == EnabledAfter(trace)
    ensures Recorded(trace + [e]) == if EnabledAfter(trace) then Recorded(trace) + [e] else Recorded(trace)
    ensures TotalOf(Recorded(trace) + [e], false) == TotalOf(Recorded(trace), false) + if e.Alloc? then e.size else 0
    ensures TotalOf(Recorded(trace) + [e], true) == TotalOf(Recorded(trace), true) + if e.Free? then e.size else 0
  {
    assert (trace + [e])[..|trace|] == trace;
    assert (Recorded(trace) + [e])[..|Recorded(trace)|] == Recorded(trace);
  }

  class UROAMMemoryTracker {
    var enabled: bool
    var allocations: map<string, int>
    var totalAllocated: int
    var totalFreed: int
    ghost var trace: seq<Event>

    ghost predicate Valid()
      reads this
    {
      && enabled == EnabledAfter(trace)
      && Tracks(allocations, Recorded(trace))
      && totalAllocated == TotalOf(Recorded(trace), false)
      && totalFreed == TotalOf(Recorded(trace), true)
    }

    constructor ()
      ensures Valid() && trace == []
    {
      enabled, allocations, totalAllocated, totalFreed := false, map[], 0, 0;
      trace := [];
    }

    method Enable()
      requires Valid()
      modifies this
      ensures Valid() && trace == old(trace) + [Event.Enable] && enabled == true
      ensures allocations == old(allocations)
      ensures totalAllocated == old(totalAllocated) && totalFreed == old(totalFreed)
    {
      enabled := true;
      ghost var before := trace;
      trace := trace + [Event.Enable];
      assert trace[..|trace| - 1] == before;
    }

    method Disable()
      requires Valid()
      modifies this
      ensures Valid() && trace == old(trace) + [Event.Disable] && enabled == false
      ensures allocations == old(allocations)
      ensures totalAllocated == old(totalAllocated) && totalFreed == old(totalFreed)
    {
      enabled := false;
      ghost var before := trace;
      trace := trace + [Event.Disable];
      assert trace[..|trace| - 1] == before;
    }

    method RecordAllocation(size: int, tag: string)
      requires Valid()
      modifies this
      ensures Valid() && trace == old(trace) + [Alloc(size, tag)] && enabled == old(enabled)
      ensures !enabled ==> allocations == old(allocations)
                           && totalAllocated == old(totalAllocated) && totalFreed == old(totalFreed)
      ensures enabled ==> allocations == old(allocations)[tag := old(Get(allocations, tag)) + size]
                          && totalAllocated == old(totalAllocated) + size && totalFreed == old(totalFreed)
    {
      ghost var before := trace;
      RecordedNext(trace, Alloc(size, tag));
      trace := trace + [Alloc(size, tag)];
      if !enabled {
        return;
      }
      totalAllocated := totalAllocated + size;
      TracksNext(allocations, Recorded(before), Alloc(size, tag));
      allocations := allocations[tag := Get(allocations, tag) + size];
    }

    method RecordFree(size: int, tag: string)
      requires Valid()
      modifies this
      ensures Valid() && trace == old(trace) + [Free(size, tag)] && enabled == old(enabled)
      ensures !enabled ==> allocations == old(allocations)
                           && totalAllocated == old(totalAllocated) && totalFreed == old(totalFreed)
      ensures enabled ==> allocations == old(allocations)[tag := Max(0, old(Get(allocations, tag)) - size)]
                          && totalFreed == old(totalFreed) + size && totalAllocated == old(totalAllocated)
    {
      ghost var before := trace;
      RecordedNext(trace, Free(size, tag));
      trace := trace + [Free(size, tag)];
      if !enabled {
        return;
      }
      totalFreed := totalFreed + size;
      TracksNext(allocations, Recorded(before), Free(size, tag));
      allocations := allocations[tag := Max(0, Get(allocations, tag) - size)];
    }

    method GetStats() returns (s: Stats)
      requires Valid()
      ensures Tracks(s.allocations, Recorded(trace))
      ensures s.totalAllocated == TotalOf(Recorded(trace), false) && s.totalFreed == TotalOf(Recorded(trace), true)
      ensures s.totalAllocated == totalAllocated && s.totalFreed == totalFreed && s.allocations == allocations
      ensures s.current == s.totalAllocated - s.totalFreed
      ensures SumValues(s.allocations, s.allocations.Keys) - s.current == ClippedOf(Recorded(trace))
    {
      Conservation(allocations, Recorded(trace));
      s := Stats(totalAllocated, totalFreed, totalAllocated - totalFreed, allocations);
    }
  }

  // ----- closed form of one tag -----

  lemma {:induction false} RecordedNonNegative(trace: seq<Event>)
    requires NonNegativeSizes(trace)
    ensures NonNegativeSizes(Recorded(trace))
  {
    if trace != [] {
      RecordedNonNegative(trace[..|trace| - 1]);
    }
  }

  lemma {:induction false} StepsRise(events: seq<Event>, tag: string)
    requires NonNegativeSizes(events)
    ensures RisesOnly(StepsOf(events, tag))
  {
    if events != [] {
      StepsRise(events[..|events| - 1], tag);
    }
  }

  /**
   * With non-negative sizes a tag's tracked value is the largest net allocation over all suffixes of
   * its recorded events, the empty suffix counting as zero.
   */
  lemma TagIsBestSuffix(m: map<string, int>, trace: seq<Event>, tag: string)
    requires NonNegativeSizes(trace) && Tracks(m, Recorded(trace))
    ensures IsBestSuffix(StepsOf(Recorded(trace), tag), Get(m, tag))
  {
    RecordedNonNegative(trace);
    StepsRise(Recorded(trace), tag);
    ValueIsBestSuffix(StepsOf(Recorded(trace), tag));
    TracksGet(m, Recorded(trace), tag);
  }

  /** With sizes of any sign only suffixes that start the record or follow a free count. */
  lemma TagIsBestRestart(m: map<string, int>, trace: seq<Event>, tag: string)
    requires Tracks(m, Recorded(trace))
    ensures IsBestRestart(StepsOf(Recorded(trace), tag), Get(m, tag))
  {
    ValueIsBestRestart(StepsOf(Recorded(trace), tag));
    TracksGet(m, Recorded(trace), tag);
  }

  // ----- conservation over all tags -----

  ghost function SumValues(m: map<string, int>, keys: set<string>): int
    requires keys <= m.Keys
  {
    if keys == {} then 0
    else
      var k :| k in keys;
      m[k] + SumValues(m, keys - {k})
  }

  lemma {:induction false} SumTakeOut(m: map<string, int>, keys: set<string>, k: string)
    requires keys <= m.Keys && k in keys
    ensures SumValues(m, keys) == m[k] + SumValues(m, keys - {k})
    decreases keys
  {
    var j :| j in keys && SumValues(m, keys) == m[j] + SumValues(m, keys - {j});
    if j != k {
      SumTakeOut(m, keys - {j}, k);
      SumTakeOut(m, keys - {k}, j);
      assert keys - {j} - {k} == keys - {k} - {j};
    }
  }

  lemma {:induction false} SumSame(m: map<string, int>, m': map<string, int>, keys: set<string>)
    requires keys <= m.Keys && keys <= m'.Keys && forall k :: k in keys ==> m[k] == m'[k]
    ensures SumValues(m, keys) == SumValues(m', keys)
    decreases keys
  {
    if keys != {} {
      var k :| k in keys;
      SumTakeOut(m, keys, k);
      SumTakeOut(m', keys, k);
      SumSame(m, m', keys - {k});
    }
  }

  lemma SumUpdate(m: map<string, int>, k: string, v: int)
    ensures SumValues(m[k := v], m[k := v].Keys) == SumValues(m, m.Keys) - Get(m, k) + v
  {
    var m' := m[k := v];
    SumTakeOut(m', m'.Keys, k);
    SumSame(m, m', m.Keys - {k});
    assert m'.Keys - {k} == m.Keys - {k};
    if k in m {
      SumTakeOut(m, m.Keys, k);
    } else {
      assert m.Keys - {k} == m.Keys;
    }
  }

  function TableOf(events: seq<Event>): map<string, int> {
    if events == [] then map[]
    else
      var m, e := TableOf(events[..|events| - 1]), events[|events| - 1];
      if e.Alloc? || e.Free? then Updated(m, e) else m
  }

  lemma {:induction false} TableTracks(events: seq<Event>)
    ensures Tracks(TableOf(events), events)
  {
    if events != [] {
      var before, e := events[..|events| - 1], events[|events| - 1];
      TableTracks(before);
      assert before + [e] == events;
      if e.Alloc? || e.Free? {
        TracksNext(TableOf(before), before, e);
      } else {
        forall t
          ensures TracksTag(TableOf(events), events, t)
        {
          assert TracksTag(TableOf(before), before, t);
        }
      }
    }
  }

  lemma TracksUnique(m: map<string, int>, m': map<string, int>, events: seq<Event>)
    requires Tracks(m, events) && Tracks(m', events)
    ensures m == m'
  {
    forall t
      ensures t in m <==> t in m'
      ensures t in m ==> m[t] == m'[t]
    {
      assert TracksTag(m, events, t) && TracksTag(m', events, t);
    }
  }

  lemma ConservationStep(m: map<string, int>, before: seq<Event>, e: Event)
    requires Tracks(m, before) && (e.Alloc? || e.Free?)
    ensures var m', events := Updated(m, e), before + [e];
            && TotalOf(events, false) - TotalOf(events, true)
               == TotalOf(before, false) - TotalOf(before, true) + Delta(AsStep(e))
            && SumValues(m', m'.Keys) - SumValues(m, m.Keys)
               == Delta(AsStep(e)) + ClippedOf(events) - ClippedOf(before)
  {
    assert (before + [e])[..|before|] == before;
    TracksGet(m, before, e.tag);
    SumUpdate(m, e.tag, Move(Get(m, e.tag), AsStep(e)));
  }

  /**
   * The sum of all tracked values exceeds total_allocated - total_freed by exactly the amount the
   * clamp swallowed.
   */
  lemma {:induction false} Conservation(m: map<string, int>, events: seq<Event>)
    requires Tracks(m, events)
    ensures SumValues(m, m.Keys) - (TotalOf(events, false) - TotalOf(events, true)) == ClippedOf(events)
  {
    TableTracks(events);
    TracksUnique(m, TableOf(events), events);
    if events != [] {
      var before, e := events[..|events| - 1], events[|events| - 1];
      var m0 := TableOf(before);
      TableTracks(before);
      Conservation(m0, before);
      assert before + [e] == events;
      if e.Alloc? || e.Free? {
        ConservationStep(m0, before, e);
      }
    }
  }

  /** That amount is never negative, and it is zero exactly when no tag was ever over-freed. */
  lemma {:induction false} ClippedIffOverFreed(events: seq<Event>)
    ensures ClippedOf(events) >= 0
    ensures ClippedOf(events) == 0 <==> forall i :: !OverFreedAt(events, i)
  {
    if events != [] {
      var before := events[..|events| - 1];
      ClippedIffOverFreed(before);
      forall i | 0 <= i < |before|
        ensures OverFreedAt(before, i) <==> OverFreedAt(events, i)
      {
        assert before[..i] == events[..i];
      }
      if ClippedOf(before) > 0 {
        var i :| OverFreedAt(before, i);
        assert OverFreedAt(events, i);
      } else if ClippedOf(events) > 0 {
        assert OverFreedAt(events, |before|);
      } else {
        forall i
          ensures !OverFreedAt(events, i)
        {
          assert !OverFreedAt(before, i);
        }
      }
    }
  }
}
