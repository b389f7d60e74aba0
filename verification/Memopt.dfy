/** Global accounting and the bump pool of src/shared/memopt.c. */
module Memopt {
  import opened Options
  import opened ReflectedWalk

  const FREE_SIZE := 4096
  const POOL_SIZE_DEFAULT := 1024 * 1024 * 1024
  const SIZE_LIMIT: nat := 0x1_0000_0000_0000_0000

  // ----- global accounting -----

  /** One entry per critical section of the global lock. Failed mappings and null frees never get there. */
  datatype Event = Init | Shutdown | Alloc(size: nat) | Free

  datatype Counters = Counters(initialized: bool, totalAllocated: int, poolUsed: int,
                               allocationCount: int, freeCount: int)

  function Apply(c: Counters, e: Event): Counters {
    match e
    case Init => if c.initialized then c else Counters(true, 0, 0, 0, 0)
    case Shutdown => c.(initialized := false, poolUsed := 0)
    case Alloc(n) => c.(totalAllocated := c.totalAllocated + n, poolUsed := c.poolUsed + n,
                        allocationCount := c.allocationCount + 1)
    case Free => c.(freeCount := c.freeCount + 1,
                    poolUsed := if c.poolUsed > FREE_SIZE then c.poolUsed - FREE_SIZE else 0)
  }

  function After(run: seq<Event>): Counters {
    if run == [] then Counters(false, 0, 0, 0, 0) else Apply(After(run[..|run| - 1]), run[|run| - 1])
  }

  class MemoptGlobals {
    var initialized: bool
    var totalAllocated: int
    var totalFreed: int
    var poolUsed: int
    var poolTotal: int
    var allocationCount: int
    var freeCount: int

    function State(): Counters
      reads this
    {
      Counters(initialized, totalAllocated, poolUsed, allocationCount, freeCount)
    }

    constructor ()
      ensures State() == After([]) && totalFreed == 0 && poolTotal == 0
    {
      poolTotal := 0;
      initialized, totalAllocated, totalFreed, poolUsed, allocationCount, freeCount := false, 0, 0, 0, 0, 0;
    }

    /** g_total_freed is reset here and never counted up anywhere. */
    method InitOnce()
      modifies this
      ensures State() == Apply(old(State()), Init)
      ensures totalFreed == if old(initialized) then old(totalFreed) else 0
      ensures poolTotal == if old(initialized) then old(poolTotal) else POOL_SIZE_DEFAULT
      ensures initialized
      ensures old(initialized) ==> State() == old(State())
      ensures !old(initialized) ==> totalAllocated == poolUsed == allocationCount == freeCount == 0
    {
      if initialized {
        return;
      }
      totalAllocated, totalFreed, poolUsed, allocationCount, freeCount := 0, 0, 0, 0, 0;
      poolTotal := POOL_SIZE_DEFAULT;
      initialized := true;
    }

    method ShutDown()
      modifies this
      ensures State() == Apply(old(State()), Shutdown)
      ensures !initialized && poolUsed == 0 && totalAllocated == old(totalAllocated)
      ensures allocationCount == old(allocationCount) && freeCount == old(freeCount)
      ensures totalFreed == old(totalFreed) && poolTotal == old(poolTotal)
    {
      initialized := false;
      poolUsed := 0;
    }

    /** hugeMapped and mapped: whether the two mmap calls would succeed. */
    method AllocFlags(size: nat, hugepage: bool, hugeMapped: bool, mapped: bool) returns (ok: bool)
      modifies this
      ensures ok == ((hugepage && hugeMapped) || mapped)
      ensures State() == if ok then Apply(old(State()), Alloc(size)) else old(State())
      ensures ok ==> totalAllocated == old(totalAllocated) + size && poolUsed == old(poolUsed) + size
                     && allocationCount == old(allocationCount) + 1
      ensures freeCount == old(freeCount) && initialized == old(initialized)
      ensures totalFreed == old(totalFreed) && poolTotal == old(poolTotal)
    {
      ok := hugepage && hugeMapped;
      if !ok {
        if !mapped {
          return;
        }
        ok := true;
      }
      totalAllocated := totalAllocated + size;
      poolUsed := poolUsed + size;
      allocationCount := allocationCount + 1;
    }

    method Release(isNull: bool)
      modifies this
      ensures State() == if isNull then old(State()) else Apply(old(State()), Free)
      ensures !isNull ==> freeCount == old(freeCount) + 1 && poolUsed == Max(0, old(poolUsed) - 4096)
      ensures totalAllocated == old(totalAllocated) && allocationCount == old(allocationCount)
              && initialized == old(initialized)
      ensures totalFreed == old(totalFreed) && poolTotal == old(poolTotal)
    {
      if isNull {
        return;
      }
      freeCount := freeCount + 1;
      poolUsed := if poolUsed > FREE_SIZE then poolUsed - FREE_SIZE else 0;
    }

    /** memopt_realloc: a new block first, then the old one goes, but only if both exist. */
    method Realloc(isNull: bool, size: nat, mapped: bool) returns (ok: bool)
      modifies this
      ensures ok == mapped
      ensures State() == if !mapped then old(State())
                         else if isNull then Apply(old(State()), Alloc(size))
                         else Apply(Apply(old(State()), Alloc(size)), Free)
      ensures mapped && !isNull ==> poolUsed == Max(0, old(poolUsed) + size - 4096)
                                    && totalAllocated == old(totalAllocated) + size
                                    && allocationCount == old(allocationCount) + 1 && freeCount == old(freeCount) + 1
      ensures totalFreed == old(totalFreed) && poolTotal == old(poolTotal)
    {
      ok := AllocFlags(size, false, false, mapped);
      if ok && !isNull {
        Release(false);
      }
    }
  }

  /** The steps of pool_used since it was last set to zero by an init or a shutdown. */
  function Epoch(run: seq<Event>): seq<Step> {
    if run == [] then []
    else
      var before := run[..|run| - 1];
      match run[|run| - 1]
      case Init => if After(before).initialized then Epoch(before) else []
      case Shutdown => []
      case Alloc(n) => Epoch(before) + [Up(n)]
      case Free => Epoch(before) + [Down(FREE_SIZE)]
  }

  /** No shutdown since the counters were last zeroed, so they all cover the same events. */
  predicate SameStart(run: seq<Event>) {
    run == [] ||
    match run[|run| - 1]
    case Init => !After(run[..|run| - 1]).initialized || SameStart(run[..|run| - 1])
    case Shutdown => false
    case _ => SameStart(run[..|run| - 1])
  }

  /** pool_used is the clamped walk of its epoch, hence its largest suffix net. */
  lemma {:induction false} PoolUsedIsWalk(run: seq<Event>)
    ensures After(run).poolUsed == Value(Epoch(run))
    ensures RisesOnly(Epoch(run)) && IsBestSuffix(Epoch(run), After(run).poolUsed)
  {
    if run != [] {
      var before := run[..|run| - 1];
      PoolUsedIsWalk(before);
      match run[|run| - 1] {
        case Alloc(n) => ValueSnoc(Epoch(before), Up(n));
        case Free => ValueSnoc(Epoch(before), Down(FREE_SIZE));
        case _ =>
      }
    }
    ValueIsBestSuffix(Epoch(run));
  }

  /** In every run the pool never claims more than was allocated. */
  lemma {:induction false} PoolUsedBounded(run: seq<Event>)
    ensures 0 <= After(run).poolUsed <= After(run).totalAllocated
  {
    if run != [] {
      PoolUsedBounded(run[..|run| - 1]);
    }
  }

  /** The exact account since the last zeroing without a shutdown: what went in, 4096 per free, and the clamp. */
  lemma {:induction false} PoolUsedAccount(run: seq<Event>)
    requires SameStart(run)
    ensures After(run).poolUsed
            == After(run).totalAllocated - FREE_SIZE * After(run).freeCount + Clipped(Epoch(run))
  {
    if run != [] {
      var before := run[..|run| - 1];
      PoolUsedIsWalk(before);
      match run[|run| - 1] {
        case Init =>
          if After(before).initialized {
            PoolUsedAccount(before);
          }
        case Shutdown =>
        case Alloc(n) =>
          PoolUsedAccount(before);
          assert Front(Epoch(run)) == Epoch(before);
        case Free =>
          PoolUsedAccount(before);
          assert Front(Epoch(run)) == Epoch(before);
      }
    }
  }

  predicate BlocksOnly(s: seq<Step>) {
    forall i :: 0 <= i < |s| ==> s[i].amount == FREE_SIZE
  }

  function Allocs(s: seq<Step>): nat {
    if s == [] then 0 else Allocs(Front(s)) + if Last(s).Up? then 1 else 0
  }

  function Frees(s: seq<Step>): nat {
    if s == [] then 0 else Frees(Front(s)) + if Last(s).Down? then 1 else 0
  }

  /** At no point were there more frees than allocations. */
  predicate FreesMatched(s: seq<Step>) {
    s == [] || (FreesMatched(Front(s)) && Frees(s) <= Allocs(s))
  }

  lemma {:induction false} ClipsIffUnmatched(s: seq<Step>)
    requires BlocksOnly(s)
    ensures Net(s) == FREE_SIZE * (Allocs(s) - Frees(s))
    ensures Clipped(s) >= 0 && (Clipped(s) == 0 <==> FreesMatched(s))
  {
    ValueIsNetPlusClipped(s);
    if s != [] {
      ClipsIffUnmatched(Front(s));
      ValueIsNetPlusClipped(Front(s));
    }
  }

  lemma {:induction false} EpochCounts(run: seq<Event>)
    requires SameStart(run)
    ensures After(run).allocationCount == Allocs(Epoch(run)) && After(run).freeCount == Frees(Epoch(run))
  {
    if run != [] {
      var before := run[..|run| - 1];
      match run[|run| - 1] {
        case Init =>
          if After(before).initialized {
            EpochCounts(before);
          }
        case Shutdown =>
        case _ =>
          assert Front(Epoch(run)) == Epoch(before);
          EpochCounts(before);
      }
    }
  }

  /**
   * When every allocation is one 4096-byte block, pool_used is 4096 bytes per block not yet freed
   * exactly if no free came before its allocation.
   */
  lemma PoolUsedCountsBlocks(run: seq<Event>)
    requires SameStart(run) && BlocksOnly(Epoch(run))
    ensures After(run).poolUsed == FREE_SIZE * (After(run).allocationCount - After(run).freeCount)
            <==> FreesMatched(Epoch(run))
  {
    PoolUsedIsWalk(run);
    ValueIsNetPlusClipped(Epoch(run));
    ClipsIffUnmatched(Epoch(run));
    EpochCounts(run);
  }

  // ----- the bump pool -----

  /** A granted request: offset into the pool and length. */
  datatype Range = Range(start: nat, len: nat)

  function End(grants: seq<Range>): nat {
    if grants == [] then 0 else var g := grants[|grants| - 1]; g.start + g.len
  }

  /** The ranges follow each other without gap or overlap from offset zero on. */
  predicate Tiles(grants: seq<Range>) {
    grants == [] ||
    (Tiles(grants[..|grants| - 1]) && grants[|grants| - 1].start == End(grants[..|grants| - 1]))
  }

  predicate Disjoint(a: Range, b: Range) {
    a.start + a.len <= b.start || b.start + b.len <= a.start
  }

  predicate Covered(grants: seq<Range>, at: nat) {
    exists i :: 0 <= i < |grants| && grants[i].start <= at < grants[i].start + grants[i].len
  }

  lemma {:induction false} TilesOrdered(grants: seq<Range>)
    requires Tiles(grants)
    ensures forall i :: 0 <= i < |grants| ==> grants[i].start + grants[i].len <= End(grants)
    ensures forall i, j :: 0 <= i < j < |grants| ==> grants[i].start + grants[i].len <= grants[j].start
  {
    if grants != [] {
      TilesOrdered(grants[..|grants| - 1]);
    }
  }

  /** Tiling covers: every offset below the end lies in some granted range. */
  lemma {:induction false} TilesCover(grants: seq<Range>, at: nat)
    requires Tiles(grants) && at < End(grants)
    ensures Covered(grants, at)
  {
    var front, g := grants[..|grants| - 1], grants[|grants| - 1];
    if g.start > at {
      TilesCover(front, at);
      var i :| 0 <= i < |front| && front[i].start <= at < front[i].start + front[i].len;
      assert grants[i] == front[i];
    }
  }

  // A run of the pool is the list of requests that reached its critical section, granted or refused.

  /** The size_t sum used + n may wrap around; the code compares what is left of it. */
  predicate Granted(size: nat, used: nat, n: nat) { (used + n) % SIZE_LIMIT <= size }

  /** What a caller can check before a request: granting it would hand out memory past the end of the pool. */
  predicate Overruns(size: nat, used: nat, n: nat) { SIZE_LIMIT <= used + n <= size + SIZE_LIMIT }

  function UsedAfter(size: nat, requests: seq<nat>): (used: nat)
    ensures used <= size
  {
    if requests == [] then 0
    else
      var used, n := UsedAfter(size, requests[..|requests| - 1]), requests[|requests| - 1];
      if Granted(size, used, n) then (used + n) % SIZE_LIMIT else used
  }

  function Grants(size: nat, requests: seq<nat>): seq<Range> {
    if requests == [] then []
    else
      var before, n := requests[..|requests| - 1], requests[|requests| - 1];
      var used := UsedAfter(size, before);
      if Granted(size, used, n) then Grants(size, before) + [Range(used, n)] else Grants(size, before)
  }

  /** Some request of the run met the guard Overruns. */
  predicate Overran(size: nat, requests: seq<nat>) {
    requests != [] &&
    var before := requests[..|requests| - 1];
    (Overran(size, before) || Overruns(size, UsedAfter(size, before), requests[|requests| - 1]))
  }

  predicate Inside(grants: seq<Range>, size: nat) {
    forall i :: 0 <= i < |grants| ==> grants[i].start + grants[i].len <= size
  }

  predicate DisjointFrom(grants: seq<Range>, r: Range) {
    forall i :: 0 <= i < |grants| ==> Disjoint(grants[i], r)
  }

  /** A granted request leaves the pool exactly under Overruns, and every request under Overruns is granted. */
  lemma LeavesPoolIffOverruns(size: nat, used: nat, n: nat)
    requires used <= size < SIZE_LIMIT && n < SIZE_LIMIT
    ensures Granted(size, used, n) && used + n > size <==> Overruns(size, used, n)
    ensures Granted(size, used, n) && !Overruns(size, used, n) ==> (used + n) % SIZE_LIMIT == used + n
  {
  }

  predicate Sizes(requests: seq<nat>) {
    forall i :: 0 <= i < |requests| ==> requests[i] < SIZE_LIMIT
  }

  lemma OneMoreGrant(front: seq<Range>, g: Range, size: nat)
    ensures Inside(front + [g], size) <==> Inside(front, size) && g.start + g.len <= size
    ensures Tiles(front + [g]) <==> Tiles(front) && g.start == End(front)
    ensures End(front + [g]) == g.start + g.len
  {
    var grants := front + [g];
    assert grants[..|front|] == front && grants[|front|] == g;
    assert forall i :: 0 <= i < |front| ==> grants[i] == front[i];
  }

  /** Without an overrun the grants tile [0, used). */
  lemma {:induction false} GrantsTile(size: nat, requests: seq<nat>)
    requires size < SIZE_LIMIT && Sizes(requests) && !Overran(size, requests)
    ensures Tiles(Grants(size, requests)) && End(Grants(size, requests)) == UsedAfter(size, requests)
  {
    if requests != [] {
      var before, n := requests[..|requests| - 1], requests[|requests| - 1];
      GrantsTile(size, before);
      LeavesPoolIffOverruns(size, UsedAfter(size, before), n);
      OneMoreGrant(Grants(size, before), Range(UsedAfter(size, before), n), size);
    }
  }

  /** Every granted range lies inside the pool exactly if no request overran. */
  lemma {:induction false} GrantsInside(size: nat, requests: seq<nat>)
    requires size < SIZE_LIMIT && Sizes(requests)
    ensures Inside(Grants(size, requests), size) <==> !Overran(size, requests)
  {
    if requests != [] {
      var before, n := requests[..|requests| - 1], requests[|requests| - 1];
      GrantsInside(size, before);
      LeavesPoolIffOverruns(size, UsedAfter(size, before), n);
      OneMoreGrant(Grants(size, before), Range(UsedAfter(size, before), n), size);
    }
  }

  /** After an overrun the whole pool counts as handed out. */
  lemma {:induction false} OverranCovers(size: nat, requests: seq<nat>, at: nat)
    requires size < SIZE_LIMIT && Sizes(requests) && Overran(size, requests) && at <= size
    ensures Covered(Grants(size, requests), at)
  {
    var before, n := requests[..|requests| - 1], requests[|requests| - 1];
    var grants, front := Grants(size, requests), Grants(size, before);
    if Overran(size, before) {
      OverranCovers(size, before, at);
      var i :| 0 <= i < |front| && front[i].start <= at < front[i].start + front[i].len;
      assert grants[i] == front[i];
    } else {
      GrantsTile(size, before);
      LeavesPoolIffOverruns(size, UsedAfter(size, before), n);
      assert grants[..|front|] == front;
      TilesCover(grants, at);
    }
  }

  /** The next non-empty grant is disjoint from all earlier ones exactly if no request overran so far. */
  lemma NextGrantDisjoint(size: nat, requests: seq<nat>, n: nat)
    requires size < SIZE_LIMIT && Sizes(requests) && 0 < n && Granted(size, UsedAfter(size, requests), n)
    ensures DisjointFrom(Grants(size, requests), Range(UsedAfter(size, requests), n)) <==> !Overran(size, requests)
  {
    var used, grants := UsedAfter(size, requests), Grants(size, requests);
    if Overran(size, requests) {
      OverranCovers(size, requests, used);
      var i :| 0 <= i < |grants| && grants[i].start <= used < grants[i].start + grants[i].len;
      assert !Disjoint(grants[i], Range(used, n));
    } else {
      GrantsTile(size, requests);
      TilesOrdered(grants);
    }
  }

  class BumpPool {
    const base: nat
    const size: nat
    var used: nat
    ghost var requests: seq<nat>

    ghost predicate Valid()
      reads this
    {
      size < SIZE_LIMIT && Sizes(requests) && used == UsedAfter(size, requests)
    }

    constructor (base: nat, size: nat)
      requires size < SIZE_LIMIT
      ensures Valid() && this.base == base && this.size == size && used == 0 && requests == []
    {
      this.base, this.size := base, size;
      used, requests := 0, [];
    }

    /** memopt_pool_alloc: the critical section of one thread; interleavings are sequences of these. */
    method Alloc(n: nat) returns (ptr: Option<nat>)
      requires Valid() && n < SIZE_LIMIT
      modifies this
      ensures Valid()
      ensures requests == if base == 0 then old(requests) else old(requests) + [n]
      ensures base == 0 ==> ptr.None?
      ensures base != 0 ==> (ptr.Some? <==> (old(used) + n) % SIZE_LIMIT <= size)
      ensures base != 0 ==> (ptr.Some? && old(used) + n > size <==> Overruns(size, old(used), n))
      ensures ptr.Some? ==> ptr.value == base + old(used) && used == (old(used) + n) % SIZE_LIMIT
      ensures ptr.Some? ==> Grants(size, requests) == Grants(size, old(requests)) + [Range(old(used), n)]
      ensures ptr.None? ==> used == old(used) && Grants(size, requests) == Grants(size, old(requests))
    {
      if base == 0 {
        return None;
      }
      LeavesPoolIffOverruns(size, used, n);
      ghost var before := requests;
      requests := requests + [n];
      assert requests[..|before|] == before;
      if (used + n) % SIZE_LIMIT > size {
        return None;
      }
      ptr := Some(base + used);
      used := (used + n) % SIZE_LIMIT;
    }
  }

  /**
   * A pool of 4096 bytes that hands out 16 bytes, then all but 8 bytes of the address space, and then
   * 8 bytes out of the first block.
   */
  method OverrunExample(base: nat) returns (first: Option<nat>, huge: Option<nat>, third: Option<nat>)
    requires base != 0
    ensures first == Some(base) && huge == Some(base + 16) && third == Some(base + 8)
    ensures !Disjoint(Range(first.value - base, 16), Range(third.value - base, 8))
  {
    var pool := new BumpPool(base, 4096);
    first := pool.Alloc(16);
    assert Overruns(4096, 16, SIZE_LIMIT - 8);
    huge := pool.Alloc(SIZE_LIMIT - 8);
    third := pool.Alloc(8);
  }
}
