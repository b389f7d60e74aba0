/** The process index of kernel/tracking.c: a fixed array of slots threaded by a search tree on pid. */
module ProcessTracking {
  import opened Options
  import opened Substring
  import opened ProcessTable
  import opened SearchTree

  const EEXIST := 17

  /** One step of the kernel's rebalancer. Whatever rb_insert_color does is a list of these. */
  datatype Rebalance = RotateLeft(at: Place) | RotateRight(at: Place) | Recolour(slot: nat, red: bool)

  method MatchesAny(comm: string, patterns: seq<string>) returns (found: bool)
    ensures found <==> OccursAny(comm, patterns)
  {
    for i := 0 to |patterns|
      invariant forall k :: 0 <= k < i ==> !Occurs(comm, patterns[k])
    {
      if Occurs(comm, patterns[i]) {
        return true;
      }
    }
    return false;
  }

  method ProcessPriority(comm: string) returns (priority: int)
    ensures priority == PriorityOf(comm)
    ensures priority == 0 <==> OccursAny(comm, AI_PATTERNS) && OccursAny(comm, INFERENCE_PATTERNS)
    ensures priority == 1 <==> !OccursAny(comm, AI_PATTERNS) && OccursAny(comm, GAMING_PATTERNS)
    ensures priority == 0 || priority == 1 || priority == 2
  {
    var ai := MatchesAny(comm, AI_PATTERNS);
    if ai {
      var inference := MatchesAny(comm, INFERENCE_PATTERNS);
      return if inference then PRIORITY_P0 else PRIORITY_P2;
    }
    var gaming := MatchesAny(comm, GAMING_PATTERNS);
    if gaming {
      return PRIORITY_P1;
    }
    return PRIORITY_P2;
  }

  function Data(s: seq<Slot>, n: nat): (table: seq<Record>)
    requires n <= |s|
    ensures |table| == n && forall k :: 0 <= k < n ==> table[k] == s[k].data
  {
    seq(n, k requires 0 <= k < n => s[k].data)
  }

  lemma OrderedFrame(o: seq<nat>, s: seq<Slot>, s': seq<Slot>)
    requires |s| == |s'| && Ordered(o, s)
    requires forall x :: x in o ==> s'[x].data.pid == s[x].data.pid
    ensures Ordered(o, s')
  {
    forall i, j | 0 <= i < j < |o| ensures Precedes(o, i, j, s') {
      assert Precedes(o, i, j, s) && o[i] in o && o[j] in o;
    }
  }

  /** The new pid's slot fits the gap the descent stopped at. */
  lemma GapFits(c: Context, slot: nat, s: seq<Slot>)
    requires slot < |s| && Ordered(InOrder(Plug(c, Leaf)), s) && Around(c, s, s[slot].data.pid)
    ensures Ordered(InOrder(Plug(c, Node(Leaf, slot, Leaf))), s)
    ensures InOrder(Plug(c, Node(Leaf, slot, Leaf))) == Before(c) + [slot] + After(c)
    ensures InOrder(Plug(c, Leaf)) == Before(c) + After(c)
  {
    InOrderPlug(c, Leaf);
    InOrderPlug(c, Node(Leaf, slot, Leaf));
    assert InOrder(Plug(c, Leaf)) == Before(c) + After(c);
    assert InOrder(Node(Leaf, slot, Leaf)) == [slot];
    OrderedParts(Before(c), After(c), s);
    OrderedJoin(Before(c), [slot], s);
    OrderedJoin(Before(c) + [slot], After(c), s);
  }

  /** A fresh leaf node behind the link at the gap. */
  lemma LinkedNew(c: Context, slot: nat, root: int, s: seq<Slot>, root': int, s': seq<Slot>)
    requires Linked(Plug(c, Leaf), root, NIL, s) && Ordered(InOrder(Plug(c, Leaf)), s)
    requires InOrder(Plug(c, Leaf)) == Before(c) + After(c) && slot !in Before(c) + After(c)
    requires slot < |s| == |s'|
    requires s'[slot].node.left == NIL == s'[slot].node.right && s'[slot].node.parent == ParentOf(c)
    requires c == Hole || root' == root
    requires Exists(PlaceOf(c), s') && Deref(PlaceOf(c), root', s') == slot
    requires forall x: nat :: x < |s| && x != slot ==> SameLinks(x, PlaceOf(c), s, s')
    ensures Linked(Plug(c, Node(Leaf, slot, Leaf)), root', NIL, s')
  {
    forall x | x in Before(c) || x in After(c)
      ensures SameLinks(x, PlaceOf(c), s, s')
    {
      assert x in Before(c) + After(c) && x in InOrder(Plug(c, Leaf));
    }
    ReplaceSubtree(c, Leaf, Node(Leaf, slot, Leaf), root, s, root', s');
  }

  lemma IndexedDistinct(o: seq<nat>, s: seq<Slot>, n: nat)
    requires n <= |s| && Ordered(o, s) && forall x: nat :: x in o <==> x < n
    ensures DistinctPids(Data(s, n))
  {
    forall i, j | 0 <= i < j < n
      ensures s[i].data.pid != s[j].data.pid
    {
      assert (i as nat) in o && (j as nat) in o;
      var p :| 0 <= p < |o| && o[p] == i;
      var q :| 0 <= q < |o| && o[q] == j;
      assert Precedes(o, p, q, s) && Precedes(o, q, p, s);
    }
  }

  /** The slots a rotation writes are different from each other and from the one holding the link. */
  lemma EdgeFacts(c: Context, a: Shape, x: nat, b: Shape, y: nat, d: Shape, t: Shape, root: int, s: seq<Slot>)
    requires t == Node(Node(a, x, b), y, d) || t == Node(a, x, Node(b, y, d))
    requires Linked(Plug(c, t), root, NIL, s) && Ordered(InOrder(Plug(c, t)), s)
    ensures x < |s| && y < |s| && x != y
    ensures Exists(PlaceOf(c), s) && Linked(t, Deref(PlaceOf(c), root, s), ParentOf(c), s)
    ensures var mid := if t == Node(Node(a, x, b), y, d) then s[x].node.right else s[y].node.left;
            && (mid == NIL || (0 <= mid < |s| && mid != x && mid != y))
            && (c.Hole? || (PlaceOf(c).slot != x && PlaceOf(c).slot != y && PlaceOf(c).slot != mid))
  {
    if t == Node(Node(a, x, b), y, d) {
      ArrangedLeft(c, a, x, b, y, d, s);
    } else {
      ArrangedRight(c, a, x, b, y, d, s);
    }
    PlaceOutside(c, t, s);
    EdgePlace(c, a, x, b, y, d, t, s);
    LinkedAt(c, t, root, s);
    if t == Node(Node(a, x, b), y, d) {
      RootInOrder(b, s[x].node.right, x, s);
      RootInOrder(Node(a, x, b), x, y, s);
      assert x in InOrder(t) && y in InOrder(t);
    } else {
      RootInOrder(b, s[y].node.left, y, s);
      RootInOrder(Node(b, y, d), y, x, s);
      assert x in InOrder(t) && y in InOrder(t);
    }
  }

  lemma RotatedOrder(c: Context, a: Shape, x: nat, b: Shape, y: nat, d: Shape)
    ensures InOrder(Plug(c, Node(Node(a, x, b), y, d))) == InOrder(Plug(c, Node(a, x, Node(b, y, d))))
  {
    RotationKeepsOrder(a, x, b, y, d);
    InOrderPlug(c, Node(Node(a, x, b), y, d));
    InOrderPlug(c, Node(a, x, Node(b, y, d)));
  }

  class ProcessIndex {
    const tracked: array<Slot>
    var root: int
    var count: nat
    var notified: seq<Record>
    ghost var tree: Shape
    ghost var run: seq<Task>

    /** The links form a search tree on pid whose nodes are exactly the first n slots. */
    ghost predicate Indexes(n: nat)
      reads this, tracked
    {
      && n <= tracked.Length == MAX_TRACKED_PROCESSES
      && Linked(tree, root, NIL, tracked[..])
      && Ordered(InOrder(tree), tracked[..])
      && forall x: nat :: x in InOrder(tree) <==> x < n
    }

    ghost predicate Valid()
      reads this, tracked
    {
      && Indexes(count)
      && Table() == TableAfter(run)
      && Pids(notified) == Pids(Table())
    }

    /** The tracked records, in slot order. */
    ghost function Table(): seq<Record>
      reads this, tracked
      requires count <= tracked.Length
    {
      Data(tracked[..], count)
    }

    /** In every state the tracked pids are the first 1024 seen, and every record is explained by the run. */
    lemma Explained()
      requires Valid()
      ensures Pids(Table()) == Capped(FirstAppearances(run)) && DistinctPids(Table())
      ensures forall k :: 0 <= k < count ==> Explains(run, Table()[k])
    {
      TrackedPids(run);
      TrackedRecords(run);
    }

    /**
     * In every state the record in slot k has priority and flags from the first visit of its pid, and
     * name, usage and node from the last.
     */
    lemma ExplainedFields(k: nat) returns (first: nat, last: nat)
      requires Valid() && k < count
      ensures first <= last < |run| && run[first].pid == run[last].pid == tracked[k].data.pid
      ensures forall j :: 0 <= j < first || last < j < |run| ==> run[j].pid != tracked[k].data.pid
      ensures tracked[k].data.isAiWorkload <==> OccursAny(run[first].comm, AI_PATTERNS)
      ensures tracked[k].data.isGaming <==> OccursAny(run[first].comm, GAMING_PATTERNS)
      ensures tracked[k].data.priority
              == if OccursAny(run[first].comm, AI_PATTERNS)
                 then if OccursAny(run[first].comm, INFERENCE_PATTERNS) then 0 else 2
                 else if OccursAny(run[first].comm, GAMING_PATTERNS) then 1 else 2
      ensures tracked[k].data.comm == run[last].comm && tracked[k].data.usage == run[last].usage
      ensures tracked[k].data.numaNode == run[last].numaNode % 256
    {
      assert Table()[k] == tracked[k].data;
      first, last := SlotFields(run, k);
    }

    constructor ()
      ensures Valid() && fresh(tracked) && Table() == [] && notified == [] && run == []
    {
      tracked := new Slot[MAX_TRACKED_PROCESSES](_ => Slot(RbNode(NIL, NIL, NIL, false),
                                                           Record(0, "", Usage(0, 0, 0), 0, 0, false, false)));
      root, count, notified := NIL, 0, [];
      tree, run := Leaf, [];
    }

    /**
     * uroam_process_tree_search: walks the links, finds what a linear scan of the n indexed slots would.
     * During normal operation n is count; after Exit it is the count before it.
     */
    method TreeSearch(pid: int, ghost n: nat) returns (r: Option<nat>)
      requires Indexes(n)
      ensures r == Find(Data(tracked[..], n), pid)
    {
      var node := root;
      ghost var s := tracked[..];
      ghost var c, cur := Hole, tree;
      WalkEnd(tree, c, cur, node, s, pid);
      while node != NIL
        invariant Walk(tree, c, cur, node, s, pid)
        invariant cur.Leaf? <==> node == NIL
        decreases cur
      {
        WalkDown(tree, c, cur.left, cur.slot, cur.right, s, pid);
        var info := tracked[node];
        if pid < info.data.pid {
          c, cur := InLeft(c, cur.slot, cur.right), cur.left;
          node := info.node.left;
        } else if pid > info.data.pid {
          c, cur := InRight(cur.left, cur.slot, c), cur.right;
          node := info.node.right;
        } else {
          WalkEnd(tree, c, cur, node, s, pid);
          IndexedDistinct(InOrder(tree), s, n);
          FindInDistinct(Data(s, n), pid, node);
          return Some(node);
        }
        WalkEnd(tree, c, cur, node, s, pid);
      }
      WalkEnd(tree, c, cur, node, s, pid);
      forall k | 0 <= k < n
        ensures Data(s, n)[k].pid != pid
      {
        assert k in InOrder(tree);
      }
      return None;
    }

    method WriteLink(p: Place, to: int)
      requires Exists(p, tracked[..])
      modifies this`root, tracked
      ensures Deref(p, root, tracked[..]) == to
      ensures p.AtRoot? || root == old(root)
      ensures forall x: nat :: x < tracked.Length ==>
                SameLinks(x, p, old(tracked[..]), tracked[..]) && tracked[x].data == old(tracked[x].data)
                && tracked[x].node.red == old(tracked[x].node.red)
    {
      match p {
        case AtRoot => root := to;
        case LeftOf(x) => tracked[x] := tracked[x].(node := tracked[x].node.(left := to));
        case RightOf(x) => tracked[x] := tracked[x].(node := tracked[x].node.(right := to));
      }
    }

    /** The four link writes of a left rotation at p, x being the node there and y its right child. */
    method TurnLeft(p: Place, x: nat, y: nat)
      requires x < tracked.Length && y < tracked.Length && x != y && Exists(p, tracked[..])
      requires p.AtRoot? || (p.slot != x && p.slot != y && p.slot != tracked[y].node.left)
      requires var mid := tracked[y].node.left; mid == NIL || (0 <= mid < tracked.Length && mid != x && mid != y)
      modifies this`root, tracked
      ensures p.AtRoot? || root == old(root)
      ensures forall k :: 0 <= k < tracked.Length ==> tracked[k].data == old(tracked[k].data)
      ensures Rotated(x, y, old(tracked[y].node.left), p, old(tracked[..]), tracked[..])
      ensures tracked[x].node.right == old(tracked[y].node.left) && tracked[x].node.parent == y
      ensures tracked[y].node.left == x && tracked[y].node.parent == old(tracked[x].node.parent)
      ensures var mid := old(tracked[y].node.left); mid == NIL || tracked[mid].node.parent == x
      ensures Deref(p, root, tracked[..]) == y
    {
      var mid, up := tracked[y].node.left, tracked[x].node.parent;
      tracked[x] := tracked[x].(node := tracked[x].node.(right := mid, parent := y));
      tracked[y] := tracked[y].(node := tracked[y].node.(left := x, parent := up));
      if mid != NIL {
        tracked[mid] := tracked[mid].(node := tracked[mid].node.(parent := x));
      }
      WriteLink(p, y);
    }

    /** The mirror image: y is the node at p and x its left child. */
    method TurnRight(p: Place, x: nat, y: nat)
      requires x < tracked.Length && y < tracked.Length && x != y && Exists(p, tracked[..])
      requires p.AtRoot? || (p.slot != x && p.slot != y && p.slot != tracked[x].node.right)
      requires var mid := tracked[x].node.right; mid == NIL || (0 <= mid < tracked.Length && mid != x && mid != y)
      modifies this`root, tracked
      ensures p.AtRoot? || root == old(root)
      ensures forall k :: 0 <= k < tracked.Length ==> tracked[k].data == old(tracked[k].data)
      ensures Rotated(x, y, old(tracked[x].node.right), p, old(tracked[..]), tracked[..])
      ensures tracked[y].node.left == old(tracked[x].node.right) && tracked[y].node.parent == x
      ensures tracked[x].node.right == y && tracked[x].node.parent == old(tracked[y].node.parent)
      ensures var mid := old(tracked[x].node.right); mid == NIL || tracked[mid].node.parent == y
      ensures Deref(p, root, tracked[..]) == x
    {
      var mid, up := tracked[x].node.right, tracked[y].node.parent;
      tracked[y] := tracked[y].(node := tracked[y].node.(left := mid, parent := x));
      tracked[x] := tracked[x].(node := tracked[x].node.(right := y, parent := up));
      if mid != NIL {
        tracked[mid] := tracked[mid].(node := tracked[mid].node.(parent := y));
      }
      WriteLink(p, x);
    }

    /** Makes the right child of the node at p its parent. Does nothing where there is no such edge. */
    method RotateLeftAt(p: Place, n: nat)
      requires Indexes(n) && (p.AtRoot? || p.slot < n)
      modifies this`root, this`tree, tracked
      ensures Indexes(n) && InOrder(tree) == old(InOrder(tree))
      ensures forall k :: 0 <= k < tracked.Length ==> tracked[k].data == old(tracked[k].data)
    {
      ghost var s, r, o := tracked[..], root, InOrder(tree);
      ghost var c, t := FindPlace(Hole, tree, p);
      LinkedAt(c, t, root, s);
      var x := Deref(p, root, tracked[..]);
      if x == NIL || tracked[x].node.right == NIL {
        return;
      }
      var y := tracked[x].node.right;
      ghost var Node(a, _, Node(b, _, d)) := t;
      EdgeFacts(c, a, x, b, y, d, t, root, s);
      TurnLeft(p, x, y);
      RotateLeftLinked(c, a, x, b, y, d, r, s, root, tracked[..]);
      tree := Plug(c, Node(Node(a, x, b), y, d));
      RotatedOrder(c, a, x, b, y, d);
      OrderedFrame(o, s, tracked[..]);
    }

    /** Makes the left child of the node at p its parent. Does nothing where there is no such edge. */
    method RotateRightAt(p: Place, n: nat)
      requires Indexes(n) && (p.AtRoot? || p.slot < n)
      modifies this`root, this`tree, tracked
      ensures Indexes(n) && InOrder(tree) == old(InOrder(tree))
      ensures forall k :: 0 <= k < tracked.Length ==> tracked[k].data == old(tracked[k].data)
    {
      ghost var s, r, o := tracked[..], root, InOrder(tree);
      ghost var c, t := FindPlace(Hole, tree, p);
      LinkedAt(c, t, root, s);
      var y := Deref(p, root, tracked[..]);
      if y == NIL || tracked[y].node.left == NIL {
        return;
      }
      var x := tracked[y].node.left;
      ghost var Node(Node(a, _, b), _, d) := t;
      EdgeFacts(c, a, x, b, y, d, t, root, s);
      TurnRight(p, x, y);
      RotateRightLinked(c, a, x, b, y, d, r, s, root, tracked[..]);
      tree := Plug(c, Node(a, x, Node(b, y, d)));
      RotatedOrder(c, a, x, b, y, d);
      OrderedFrame(o, s, tracked[..]);
    }

    method Paint(slot: nat, red: bool, n: nat)
      requires Indexes(n) && slot < n
      modifies tracked
      ensures Indexes(n)
      ensures forall k :: 0 <= k < tracked.Length ==> tracked[k].data == old(tracked[k].data)
    {
      ghost var s := tracked[..];
      tracked[slot] := tracked[slot].(node := tracked[slot].node.(red := red));
      LinkedFrame(tree, root, NIL, s, tracked[..]);
      OrderedFrame(InOrder(tree), s, tracked[..]);
    }

    /**
     * rb_insert_color as an arbitrary list of rotations and recolourings. Steps that name a node
     * outside the tree do nothing.
     */
    method InsertColor(steps: seq<Rebalance>, n: nat)
      requires Indexes(n)
      modifies this`root, this`tree, tracked
      ensures Indexes(n) && InOrder(tree) == old(InOrder(tree))
      ensures forall k :: 0 <= k < tracked.Length ==> tracked[k].data == old(tracked[k].data)
    {
      for i := 0 to |steps|
        invariant Indexes(n) && InOrder(tree) == old(InOrder(tree))
        invariant forall k :: 0 <= k < tracked.Length ==> tracked[k].data == old(tracked[k].data)
      {
        match steps[i] {
          case RotateLeft(p) => if p.AtRoot? || p.slot < n { RotateLeftAt(p, n); }
          case RotateRight(p) => if p.AtRoot? || p.slot < n { RotateRightAt(p, n); }
          case Recolour(slot, red) => if slot < n { Paint(slot, red, n); }
        }
      }
    }

    /** rb_link_node at the gap the descent stopped at: writes the new node and the link that leads to it. */
    method LinkNode(slot: nat, parent: int, link: Place, ghost c: Context)
      requires Indexes(slot) && slot < MAX_TRACKED_PROCESSES
      requires tree == Plug(c, Leaf) && link == PlaceOf(c) && parent == ParentOf(c) && Exists(link, tracked[..])
      requires Around(c, tracked[..], tracked[slot].data.pid)
      modifies this`root, this`tree, tracked
      ensures Indexes(slot + 1) && tracked[slot].node.red
      ensures forall k :: 0 <= k < tracked.Length ==> tracked[k].data == old(tracked[k].data)
    {
      ghost var s, r := tracked[..], root;
      GapFits(c, slot, s);
      if c != Hole {
        PlaceListed(c);
        assert link.slot in Before(c) + After(c) && link.slot in InOrder(tree);
      }
      tracked[slot] := tracked[slot].(node := RbNode(NIL, NIL, parent, true));
      WriteLink(link, slot);
      tree := Plug(c, Node(Leaf, slot, Leaf));
      OrderedFrame(InOrder(tree), s, tracked[..]);
      LinkedNew(c, slot, r, s, root, tracked[..]);
      assert forall x :: x in Before(c) + [slot] + After(c) <==> x == slot || x in Before(c) + After(c);
    }

    /** uroam_process_tree_insert: descends to the pid's gap, links the slot there, rebalances. */
    method TreeInsert(slot: nat, rebalance: seq<Rebalance>) returns (ret: int)
      requires Indexes(slot) && slot < MAX_TRACKED_PROCESSES
      modifies this`root, this`tree, tracked
      ensures forall k :: 0 <= k < tracked.Length ==> tracked[k].data == old(tracked[k].data)
      ensures ret == 0 || ret == -EEXIST
      ensures ret == -EEXIST <==> exists k :: 0 <= k < slot && tracked[k].data.pid == tracked[slot].data.pid
      ensures ret == 0 ==> Indexes(slot + 1)
      ensures ret != 0 ==> Indexes(slot) && tree == old(tree)
    {
      var pid := tracked[slot].data.pid;
      var link, parent := AtRoot, NIL;
      ghost var s := tracked[..];
      ghost var c, cur := Hole, tree;
      while Deref(link, root, tracked[..]) != NIL
        invariant Exists(link, tracked[..]) && link == PlaceOf(c) && parent == ParentOf(c)
        invariant Walk(tree, c, cur, Deref(link, root, tracked[..]), s, pid)
        decreases cur
        modifies {}
      {
        parent := Deref(link, root, tracked[..]);
        WalkEnd(tree, c, cur, parent, s, pid);
        WalkDown(tree, c, cur.left, cur.slot, cur.right, s, pid);
        if pid < tracked[parent].data.pid {
          c, cur := InLeft(c, cur.slot, cur.right), cur.left;
          link := LeftOf(parent);
        } else if pid > tracked[parent].data.pid {
          c, cur := InRight(cur.left, cur.slot, c), cur.right;
          link := RightOf(parent);
        } else {
          return -EEXIST;
        }
      }
      WalkEnd(tree, c, cur, NIL, s, pid);
      LinkNode(slot, parent, link, c);
      InsertColor(rebalance, slot + 1);
      return 0;
    }

    /** The branch for a known process: pid, priority and the workload flags stay. */
    method RefreshSlot(k: nat, task: Task)
      requires Indexes(count) && k < count
      modifies tracked
      ensures Indexes(count)
      ensures Table() == old(Table())[k := Refreshed(old(Table())[k], task)]
      ensures tracked[k].data == old(tracked[k].data).(comm := task.comm, usage := task.usage,
                                                       numaNode := task.numaNode % 256)
    {
      ghost var s := tracked[..];
      tracked[k] := tracked[k].(data := tracked[k].data.(usage := task.usage));
      tracked[k] := tracked[k].(data := tracked[k].data.(numaNode := NodeByte(task.numaNode)));
      tracked[k] := tracked[k].(data := tracked[k].data.(comm := task.comm));
      LinkedFrame(tree, root, NIL, s, tracked[..]);
      OrderedFrame(InOrder(tree), s, tracked[..]);
    }

    /** The branch for a new process with a free slot left. The insertion cannot report a duplicate. */
    method AddSlot(task: Task, rebalance: seq<Rebalance>)
      requires Indexes(count) && count < MAX_TRACKED_PROCESSES
      requires forall k :: 0 <= k < count ==> tracked[k].data.pid != task.pid
      modifies this`root, this`tree, this`count, this`notified, tracked
      ensures Indexes(count) && count == old(count) + 1
      ensures Table() == old(Table()) + [NewRecord(task)]
      ensures notified == old(notified) + [NewRecord(task)]
      ensures tracked[old(count)].data
              == Record(task.pid, task.comm, task.usage, PriorityOf(task.comm), task.numaNode % 256,
                        OccursAny(task.comm, AI_PATTERNS), OccursAny(task.comm, GAMING_PATTERNS))
    {
      ghost var s := tracked[..];
      var priority := ProcessPriority(task.comm);
      var ai := MatchesAny(task.comm, AI_PATTERNS);
      var gaming := MatchesAny(task.comm, GAMING_PATTERNS);
      var record := Record(task.pid, task.comm, task.usage, priority, NodeByte(task.numaNode), ai, gaming);
      assert record == NewRecord(task);
      tracked[count] := Slot(tracked[count].node.(parent := count), record);
      LinkedFrame(tree, root, NIL, s, tracked[..]);
      OrderedFrame(InOrder(tree), s, tracked[..]);
      var ret := TreeInsert(count, rebalance);
      assert ret == 0;
      count := count + 1;
      notified := notified + [record];
    }

    /** uroam_tracking_update_process: one visit of the scan, atomic under the tree lock. */
    method UpdateProcess(task: Task, rebalance: seq<Rebalance>)
      requires Valid()
      modifies this, tracked
      ensures Valid() && run == old(run) + [task]
      ensures Table() == Update(old(Table()), task)
      ensures notified == old(notified) + if count == old(count) then [] else [NewRecord(task)]
    {
      assert (run + [task])[..|run|] == run;
      ghost var table, sent := Table(), notified;
      var found := TreeSearch(task.pid, count);
      if found.Some? {
        RefreshSlot(found.value, task);
        assert Pids(Table()) == Pids(table);
      } else if count < MAX_TRACKED_PROCESSES {
        assert forall k :: 0 <= k < count ==> table[k].pid != task.pid;
        AddSlot(task, rebalance);
        assert Pids(Table()) == Pids(table) + [task.pid];
        assert Pids(notified) == Pids(sent) + [task.pid];
      }
      run := run + [task];
    }

    /** uroam_tracking_get_process: the pointer handed out is the slot number. */
    method GetProcess(pid: int, ghost n: nat) returns (r: Option<nat>)
      requires Indexes(n)
      ensures r == Find(Data(tracked[..], n), pid)
    {
      r := TreeSearch(pid, n);
    }

    /**
     * uroam_tracking_exit: only the count is cleared. The links stay, so lookups still find every
     * process tracked before; the index matches the emptied table only if it was empty already.
     */
    method Exit()
      requires Valid()
      modifies this`count
      ensures count == 0 && Indexes(old(count))
      ensures Indexes(count) <==> old(count) == 0
    {
      if count > 0 {
        assert 0 in InOrder(tree);
      }
      count := 0;
    }

    /** The loop body of the scan: get_pid_task may find no task behind a number. */
    method VisitNumber(found: Option<Task>, rebalance: seq<Rebalance>)
      requires Valid()
      modifies this, tracked
      ensures Valid() && run == old(run) + TaskList(found)
    {
      if found.Some? {
        UpdateProcess(found.value, rebalance);
      }
    }

    /** uroam_tracking_scan: asks for number after number and ends at the first one that is free. */
    method Scan(pids: PidSpace, rebalance: nat -> seq<Rebalance>) returns (ghost end: nat)
      requires Valid()
      modifies this, tracked
      ensures Valid() && end !in pids && ScannedBelow(old(run), run, pids, end)
    {
      var nr: nat := 1;
      while nr in pids
        invariant Valid() && ScannedBelow(old(run), run, pids, nr)
        decreases NumbersFrom(pids, nr)
      {
        ScanNext(old(run), run, pids, nr);
        VisitNumber(pids[nr], rebalance(nr));
        nr := nr + 1;
      }
      end := nr;
    }

    /**
     * A pointer obtained before a scan is still good after it: a lookup finds the same slot, and
     * through the pointer one sees the same process with its priority and workload flags.
     */
    method PointerSurvivesScan(pid: int, pids: PidSpace, rebalance: nat -> seq<Rebalance>) returns (p: Option<nat>)
      requires Valid()
      modifies this, tracked
      ensures Valid() && p == Find(old(Table()), pid)
      ensures p.Some? ==> Find(Table(), pid) == p
      ensures p.Some? ==> SameProcess(Table()[p.value], old(Table())[p.value])
    {
      ghost var before := run;
      p := GetProcess(pid, count);
      ghost var end := Scan(pids, rebalance);
      LookupSurvives(before, TasksUpTo(pids, end - 1), pid);
    }
  }
}
