/** MemoryPool of integrations/uroam/core.py: a LIFO free list over blocks of the system allocator. */
module BlockPool {
  import opened Options

  /** Every block the system allocator ever hands out is a new number, even where an address recurs. */
  type Block = nat

  /** The two fields that change; inUse is the source's counter named allocated. */
  datatype Pool = Pool(blocks: seq<Block>, inUse: int)

  /** A pool with the whereabouts of every block: with the client, given back, or ever obtained. */
  datatype World = World(pool: Pool, held: set<Block>, released: set<Block>, obtained: set<Block>)

  /** A call on the pool. sys is what the system allocator would answer. */
  datatype Call = Allocate(sys: Option<Block>) | Free(b: Block)

  /** What allocate returns. */
  function Given(p: Pool, sys: Option<Block>): Option<Block> {
    if p.blocks == [] then sys else Some(p.blocks[|p.blocks| - 1])
  }

  function Taken(p: Pool): Pool {
    if p.blocks == [] then p else Pool(p.blocks[..|p.blocks| - 1], p.inUse + 1)
  }

  function Returned(p: Pool, count: nat, b: Block): Pool {
    if |p.blocks| < count then Pool(p.blocks + [b], p.inUse - 1) else p
  }

  function Do(w: World, count: nat, c: Call): World {
    match c
    case Allocate(sys) =>
      var got := match Given(w.pool, sys) { case None => {} case Some(b) => {b} };
      World(Taken(w.pool), w.held + got, w.released, w.obtained + got)
    case Free(b) =>
      World(Returned(w.pool, count, b), w.held - {b},
            if |w.pool.blocks| < count then w.released else w.released + {b}, w.obtained)
  }

  function DoAll(w: World, count: nat, calls: seq<Call>): World {
    if calls == [] then w else Do(DoAll(w, count, calls[..|calls| - 1]), count, calls[|calls| - 1])
  }

  /** The client frees only what it holds; the system allocator never repeats a block. */
  predicate Proper(w: World, c: Call) {
    match c
    case Allocate(sys) => sys.Some? ==> sys.value !in w.obtained
    case Free(b) => b in w.held
  }

  predicate AllProper(w: World, count: nat, calls: seq<Call>) {
    calls == [] ||
    (AllProper(w, count, calls[..|calls| - 1]) && Proper(DoAll(w, count, calls[..|calls| - 1]), calls[|calls| - 1]))
  }

  /**
   * Every block obtained is in exactly one of free list, client and released; the counters account for
   * the pre-allocated blocks, and never claim more blocks in use than the client holds.
   */
  ghost predicate Sound(w: World, count: nat, prealloc: nat) {
    && multiset(w.pool.blocks) + multiset(w.held) + multiset(w.released) == multiset(w.obtained)
    && |w.pool.blocks| <= count && prealloc <= count
    && w.pool.inUse + |w.pool.blocks| == prealloc
    && w.pool.inUse <= |w.held|
  }

  /** Counting each obtained block once over the three places means it is in exactly one of them. */
  lemma ExactlyOnePlace(w: World, count: nat, prealloc: nat, b: Block)
    requires Sound(w, count, prealloc)
    ensures b in w.obtained <==> b in w.pool.blocks || b in w.held || b in w.released
    ensures !(b in w.pool.blocks && b in w.held) && !(b in w.held && b in w.released)
    ensures !(b in w.pool.blocks && b in w.released)
  {
    var ms := multiset(w.pool.blocks) + multiset(w.held) + multiset(w.released);
    assert ms[b] == multiset(w.pool.blocks)[b] + multiset(w.held)[b] + multiset(w.released)[b];
    assert b in w.pool.blocks <==> multiset(w.pool.blocks)[b] > 0;
  }

  lemma FreeListDistinct(w: World, count: nat, prealloc: nat)
    requires Sound(w, count, prealloc)
    ensures forall i, j :: 0 <= i < j < |w.pool.blocks| ==> w.pool.blocks[i] != w.pool.blocks[j]
  {
    forall i, j | 0 <= i < j < |w.pool.blocks|
      ensures w.pool.blocks[i] != w.pool.blocks[j]
    {
      var s, x := w.pool.blocks, w.pool.blocks[j];
      assert s == s[..j] + [x] + s[j + 1..];
      assert multiset(s) == multiset(s[..j]) + multiset{x} + multiset(s[j + 1..]);
      assert 1 >= multiset(w.obtained)[x] >= multiset(s)[x] >= multiset(s[..j])[x] + 1;
      assert x !in s[..j];
      assert s[..j][i] == s[i];
    }
  }

  lemma PoppedSum(blocks: seq<Block>, held: set<Block>, released: set<Block>)
    requires blocks != [] && blocks[|blocks| - 1] !in held
    ensures var b := blocks[|blocks| - 1];
            multiset(blocks[..|blocks| - 1]) + multiset(held + {b}) + multiset(released)
            == multiset(blocks) + multiset(held) + multiset(released)
  {
    var rest, b := blocks[..|blocks| - 1], blocks[|blocks| - 1];
    assert blocks == rest + [b];
    assert multiset(blocks) == multiset(rest) + multiset{b};
    assert multiset(held + {b}) == multiset(held) + multiset{b};
  }

  lemma PopKeeps(w: World, count: nat, prealloc: nat)
    requires Sound(w, count, prealloc) && w.pool.blocks != []
    ensures var b := w.pool.blocks[|w.pool.blocks| - 1];
            w.obtained + {b} == w.obtained && b !in w.held
            && Sound(World(Taken(w.pool), w.held + {b}, w.released, w.obtained), count, prealloc)
  {
    var b := w.pool.blocks[|w.pool.blocks| - 1];
    ExactlyOnePlace(w, count, prealloc, b);
    PoppedSum(w.pool.blocks, w.held, w.released);
  }

  lemma FallbackKeeps(w: World, count: nat, prealloc: nat, b: Block)
    requires Sound(w, count, prealloc) && b !in w.obtained
    ensures Sound(World(w.pool, w.held + {b}, w.released, w.obtained + {b}), count, prealloc)
  {
    ExactlyOnePlace(w, count, prealloc, b);
    assert multiset(w.held + {b}) == multiset(w.held) + multiset{b};
    assert multiset(w.obtained + {b}) == multiset(w.obtained) + multiset{b};
    assert |w.held + {b}| == |w.held| + 1;
  }

  lemma AllocateKeeps(w: World, count: nat, prealloc: nat, sys: Option<Block>)
    requires Sound(w, count, prealloc) && Proper(w, Allocate(sys))
    ensures Sound(Do(w, count, Allocate(sys)), count, prealloc)
  {
    if w.pool.blocks != [] {
      PopKeeps(w, count, prealloc);
    } else if sys.Some? {
      FallbackKeeps(w, count, prealloc, sys.value);
    } else {
      assert Do(w, count, Allocate(sys)) == w;
    }
  }

  lemma FreeKeeps(w: World, count: nat, prealloc: nat, b: Block)
    requires Sound(w, count, prealloc) && Proper(w, Free(b))
    ensures Sound(Do(w, count, Free(b)), count, prealloc)
  {
    ExactlyOnePlace(w, count, prealloc, b);
    assert multiset(w.held) == multiset(w.held - {b}) + multiset{b};
    if |w.pool.blocks| < count {
      assert multiset(w.pool.blocks + [b]) == multiset(w.pool.blocks) + multiset{b};
    } else {
      assert multiset(w.released + {b}) == multiset(w.released) + multiset{b};
    }
  }

  lemma SoundStep(w: World, count: nat, prealloc: nat, c: Call)
    requires Sound(w, count, prealloc) && Proper(w, c)
    ensures Sound(Do(w, count, c), count, prealloc)
  {
    match c {
      case Allocate(sys) => AllocateKeeps(w, count, prealloc, sys);
      case Free(b) => FreeKeeps(w, count, prealloc, b);
    }
  }

  /** Every proper run keeps the account; inUse can fall below zero by at most the failed pre-allocations. */
  lemma {:induction false} SoundForever(w: World, count: nat, prealloc: nat, calls: seq<Call>)
    requires Sound(w, count, prealloc) && AllProper(w, count, calls)
    ensures Sound(DoAll(w, count, calls), count, prealloc)
    ensures prealloc - count <= DoAll(w, count, calls).pool.inUse <= prealloc
  {
    if calls != [] {
      SoundForever(w, count, prealloc, calls[..|calls| - 1]);
      SoundStep(DoAll(w, count, calls[..|calls| - 1]), count, prealloc, calls[|calls| - 1]);
    }
  }

  /** Handing a block back and allocating again restores pool and client exactly when the pool had room. */
  lemma AllocateUndoesFree(w: World, count: nat, prealloc: nat, b: Block, sys: Option<Block>)
    requires Sound(w, count, prealloc) && Proper(w, Free(b)) && Proper(w, Allocate(sys))
    ensures Do(Do(w, count, Free(b)), count, Allocate(sys)) == w <==> |w.pool.blocks| < count
  {
    var mid := Do(w, count, Free(b));
    ExactlyOnePlace(w, count, prealloc, b);
    if |w.pool.blocks| < count {
      assert w.held - {b} + {b} == w.held;
    } else {
      assert b !in Do(mid, count, Allocate(sys)).held;
    }
  }

  lemma AddPreallocated(w: World, count: nat, prealloc: nat, b: Block)
    requires Sound(w, count, prealloc) && w.held == {} && w.released == {} && w.pool.inUse == 0
    requires b !in w.pool.blocks && |w.pool.blocks| < count
    ensures Sound(World(Pool(w.pool.blocks + [b], 0), {}, {}, w.obtained + {b}), count, prealloc + 1)
  {
    ExactlyOnePlace(w, count, prealloc, b);
    assert multiset(w.pool.blocks + [b]) == multiset(w.pool.blocks) + multiset{b};
    assert multiset(w.obtained + {b}) == multiset(w.obtained) + multiset{b};
  }

  /** The blocks among the answers of the system allocator, in order. */
  function Obtained(sys: seq<Option<Block>>): seq<Block> {
    if sys == [] then []
    else
      var front, last := Obtained(sys[..|sys| - 1]), sys[|sys| - 1];
      if last.Some? then front + [last.value] else front
  }

  lemma {:induction false} ObtainedMembers(sys: seq<Option<Block>>)
    ensures forall b :: b in Obtained(sys) <==> Some(b) in sys
  {
    if sys != [] {
      ObtainedMembers(sys[..|sys| - 1]);
      assert sys == sys[..|sys| - 1] + [sys[|sys| - 1]];
    }
  }

  predicate DistinctAnswers(sys: seq<Option<Block>>) {
    forall i, j :: 0 <= i < j < |sys| && sys[i].Some? && sys[j].Some? ==> sys[i] != sys[j]
  }

  /** The state right after the pre-allocation calls with these answers. */
  function Preallocated(sys: seq<Option<Block>>): World {
    World(Pool(Obtained(sys), 0), {}, {}, set b | b in Obtained(sys))
  }

  lemma {:induction false} PreallocatedSound(sys: seq<Option<Block>>, count: nat)
    requires |sys| <= count && DistinctAnswers(sys)
    ensures |Obtained(sys)| <= |sys| && Sound(Preallocated(sys), count, |Obtained(sys)|)
  {
    if sys != [] {
      var front, last := sys[..|sys| - 1], sys[|sys| - 1];
      PreallocatedSound(front, count);
      if last.Some? {
        ObtainedMembers(front);
        assert last !in front;
        AddPreallocated(Preallocated(front), count, |Obtained(front)|, last.value);
        assert Preallocated(sys).obtained == Preallocated(front).obtained + {last.value};
      }
    }
  }

  class MemoryPool {
    const size: nat
    const count: nat
    var freeBlocks: seq<Block>
    var inUse: int
    ghost var prealloc: nat
    ghost var held: set<Block>
    ghost var released: set<Block>
    ghost var obtained: set<Block>

    ghost function Now(): World
      reads this
    {
      World(Pool(freeBlocks, inUse), held, released, obtained)
    }

    ghost predicate Valid()
      reads this
    {
      Sound(Now(), count, prealloc)
    }

    /** sys lists what the pre-allocation calls return; failed ones are skipped. */
    constructor (size: nat, count: nat, sys: seq<Option<Block>>)
      requires |sys| == count
      requires DistinctAnswers(sys)
      ensures Valid() && this.size == size && this.count == count
      ensures inUse == 0 && held == {} && released == {}
      ensures freeBlocks == Obtained(sys)
    {
      this.size, this.count := size, count;
      freeBlocks, inUse := [], 0;
      prealloc, held, released, obtained := 0, {}, {}, {};
      new;
      for i := 0 to count
        invariant inUse == 0 && held == {} && released == {}
        invariant freeBlocks == Obtained(sys[..i])
      {
        assert sys[..i + 1][..i] == sys[..i];
        if sys[i].Some? {
          freeBlocks := freeBlocks + [sys[i].value];
        }
      }
      assert sys[..count] == sys;
      prealloc, obtained := |freeBlocks|, set b | b in freeBlocks;
      PreallocatedSound(sys, count);
    }

    method Allocate(sys: Option<Block>) returns (r: Option<Block>)
      requires Valid() && Proper(Now(), Call.Allocate(sys))
      modifies this
      ensures Valid() && prealloc == old(prealloc)
      ensures r == Given(old(Now()).pool, sys) && Now() == Do(old(Now()), count, Call.Allocate(sys))
      ensures old(freeBlocks) == [] ==> r == sys && freeBlocks == [] && inUse == old(inUse)
      ensures old(freeBlocks) != [] ==> r.Some? && old(freeBlocks) == freeBlocks + [r.value] && inUse == old(inUse) + 1
      ensures held == old(held) + (if r.Some? then {r.value} else {}) && released == old(released)
    {
      SoundStep(Now(), count, prealloc, Call.Allocate(sys));
      ghost var next := Do(Now(), count, Call.Allocate(sys));
      held, obtained := next.held, next.obtained;
      if |freeBlocks| > 0 {
        var b := freeBlocks[|freeBlocks| - 1];
        freeBlocks := freeBlocks[..|freeBlocks| - 1];
        inUse := inUse + 1;
        r := Some(b);
      } else {
        r := sys;
      }
      assert Now() == next;
    }

    /** The client returns a block it holds. A full pool passes it on to the system allocator. */
    method Free(b: Block)
      requires Valid() && Proper(Now(), Call.Free(b))
      modifies this
      ensures Valid() && prealloc == old(prealloc)
      ensures Now() == Do(old(Now()), count, Call.Free(b))
      ensures held == old(held) - {b} && obtained == old(obtained)
      ensures old(|freeBlocks|) < count
              ==> freeBlocks == old(freeBlocks) + [b] && inUse == old(inUse) - 1 && released == old(released)
      ensures old(|freeBlocks|) >= count
              ==> freeBlocks == old(freeBlocks) && inUse == old(inUse) && released == old(released) + {b}
    {
      SoundStep(Now(), count, prealloc, Call.Free(b));
      if |freeBlocks| < count {
        freeBlocks := freeBlocks + [b];
        inUse := inUse - 1;
      } else {
        released := released + {b};
      }
      held := held - {b};
    }
  }
}
