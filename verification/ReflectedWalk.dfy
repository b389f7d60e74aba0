/** A counter that goes up freely and is clamped at zero on the way down. */
module ReflectedWalk {

  datatype Step = Up(amount: int) | Down(amount: int)

  function Max(a: int, b: int): int { if a >= b then a else b }

  function Last(s: seq<Step>): Step
    requires s != []
  {
    s[|s| - 1]
  }

  function Front(s: seq<Step>): seq<Step>
    requires s != []
  {
    s[..|s| - 1]
  }

  function Delta(x: Step): int {
    match x
    case Up(a) => a
    case Down(a) => -a
  }

  function Move(v: int, x: Step): int {
    match x
    case Up(a) => v + a
    case Down(a) => Max(0, v - a)
  }

  /** The counter after the steps, starting from zero. */
  function Value(s: seq<Step>): int {
    if s == [] then 0 else Move(Value(Front(s)), Last(s))
  }

  lemma ValueSnoc(s: seq<Step>, x: Step)
    ensures Value(s + [x]) == Move(Value(s), x)
  {
    assert Front(s + [x]) == s;
  }

  /** What an unclamped counter would show. */
  function Net(s: seq<Step>): int {
    if s == [] then 0 else Net(Front(s)) + Delta(Last(s))
  }

  /** The part of the down steps that the clamp swallowed. */
  function Clipped(s: seq<Step>): int {
    if s == [] then 0
    else
      Clipped(Front(s)) +
      match Last(s)
      case Up(_) => 0
      case Down(a) => Max(0, a - Value(Front(s)))
  }

  /** Positions where a suffix may start: the beginning, and right after a down step. */
  predicate Restart(s: seq<Step>, i: int) {
    0 <= i <= |s| && (i == 0 || s[i - 1].Down?)
  }

  function NetFrom(s: seq<Step>, i: nat): int
    requires i <= |s|
  {
    Net(s[i..])
  }

  /** v is the largest net change over all suffixes, the empty one included. */
  ghost predicate IsBestSuffix(s: seq<Step>, v: int) {
    && (exists i :: 0 <= i <= |s| && NetFrom(s, i) == v)
    && (forall i :: 0 <= i <= |s| ==> NetFrom(s, i) <= v)
  }

  /** v is the largest net change over the suffixes that start at a restart position. */
  ghost predicate IsBestRestart(s: seq<Step>, v: int) {
    && (exists i :: Restart(s, i) && NetFrom(s, i) == v)
    && (forall i :: Restart(s, i) ==> NetFrom(s, i) <= v)
  }

  predicate RisesOnly(s: seq<Step>) {
    forall i :: 0 <= i < |s| ==> s[i].Up? ==> s[i].amount >= 0
  }

  lemma NetFromSnoc(s: seq<Step>, i: nat)
    requires s != [] && i < |s|
    ensures NetFrom(s, i) == NetFrom(Front(s), i) + Delta(Last(s))
  {
    assert Front(s[i..]) == Front(s)[i..];
  }

  /** Closed form without any assumption on the signs of the steps. */
  lemma {:induction false} ValueIsBestRestart(s: seq<Step>)
    ensures IsBestRestart(s, Value(s))
  {
    if s == [] {
      assert Restart(s, 0) && NetFrom(s, 0) == 0;
    } else {
      var p := Front(s);
      ValueIsBestRestart(p);
      var best :| Restart(p, best) && NetFrom(p, best) == Value(p);
      NetFromSnoc(s, best);
      assert NetFrom(s, |s|) == 0;
      assert Restart(s, best);
      if Last(s).Down? && Value(s) == 0 {
        assert Restart(s, |s|);
      }
      forall i | Restart(s, i)
        ensures NetFrom(s, i) <= Value(s)
      {
        if i < |s| {
          NetFromSnoc(s, i);
          assert Restart(p, i);
        }
      }
    }
  }

  /** Without negative up steps every suffix qualifies, the empty one included. */
  lemma {:induction false} ValueIsBestSuffix(s: seq<Step>)
    requires RisesOnly(s)
    ensures IsBestSuffix(s, Value(s))
  {
    if s == [] {
      assert NetFrom(s, 0) == 0;
    } else {
      var p := Front(s);
      ValueIsBestSuffix(p);
      var best :| 0 <= best <= |p| && NetFrom(p, best) == Value(p);
      NetFromSnoc(s, best);
      assert NetFrom(s, |s|) == 0;
      assert NetFrom(p, |p|) == 0;
      forall i | 0 <= i <= |s|
        ensures NetFrom(s, i) <= Value(s)
      {
        if i < |s| {
          NetFromSnoc(s, i);
        }
      }
    }
  }

  /** The clamp only ever adds, and exactly what it swallowed. */
  lemma {:induction false} ValueIsNetPlusClipped(s: seq<Step>)
    ensures Value(s) == Net(s) + Clipped(s)
    ensures Clipped(s) >= 0
  {
    if s != [] {
      ValueIsNetPlusClipped(Front(s));
    }
  }
}
