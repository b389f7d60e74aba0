/**
 * Trees threaded through an array. A node is a slot number; its links live in the slot.
 * A Shape is the tree a set of links forms, a Context is a Shape with one subtree missing.
 */
module SearchTree {
  import opened ProcessTable

  const NIL := -1

  /** struct rb_node: links are slot numbers, NIL stands for the null pointer. */
  datatype RbNode = RbNode(left: int, right: int, parent: int, red: bool)

  /** struct uroam_process_info with its embedded tree node. */
  datatype Slot = Slot(node: RbNode, data: Record)

  datatype Shape = Leaf | Node(left: Shape, slot: nat, right: Shape)

  datatype Context =
    | Hole
    | InLeft(up: Context, slot: nat, right: Shape)
    | InRight(left: Shape, slot: nat, up: Context)

  /** Where a link is stored: what the C code's struct rb_node ** points at. */
  datatype Place = AtRoot | LeftOf(slot: nat) | RightOf(slot: nat)

  ghost function InOrder(t: Shape): seq<nat> {
    match t
    case Leaf => []
    case Node(l, x, r) => InOrder(l) + [x] + InOrder(r)
  }

  ghost function Plug(c: Context, t: Shape): Shape {
    match c
    case Hole => t
    case InLeft(up, x, r) => Plug(up, Node(t, x, r))
    case InRight(l, x, up) => Plug(up, Node(l, x, t))
  }

  ghost function Before(c: Context): seq<nat> {
    match c
    case Hole => []
    case InLeft(up, _, _) => Before(up)
    case InRight(l, x, up) => Before(up) + InOrder(l) + [x]
  }

  ghost function After(c: Context): seq<nat> {
    match c
    case Hole => []
    case InLeft(up, x, r) => [x] + InOrder(r) + After(up)
    case InRight(_, _, up) => After(up)
  }

  ghost function PlaceOf(c: Context): Place {
    match c
    case Hole => AtRoot
    case InLeft(_, x, _) => LeftOf(x)
    case InRight(_, x, _) => RightOf(x)
  }

  ghost function ParentOf(c: Context): int {
    match c
    case Hole => NIL
    case InLeft(_, x, _) => x
    case InRight(_, x, _) => x
  }

  // ----- links in memory -----

  predicate Exists(p: Place, s: seq<Slot>) {
    p.AtRoot? || p.slot < |s|
  }

  function Deref(p: Place, root: int, s: seq<Slot>): int
    requires Exists(p, s)
  {
    match p
    case AtRoot => root
    case LeftOf(x) => s[x].node.left
    case RightOf(x) => s[x].node.right
  }

  /** The links starting at link form exactly the tree t, hanging below parent. */
  ghost predicate Linked(t: Shape, link: int, parent: int, s: seq<Slot>) {
    match t
    case Leaf => link == NIL
    case Node(l, x, r) =>
      && link == x < |s|
      && s[x].node.parent == parent
      && Linked(l, s[x].node.left, x, s)
      && Linked(r, s[x].node.right, x, s)
  }

  /** Same links in both memories, except possibly the one stored at place p. */
  ghost predicate SameLinks(x: nat, p: Place, s: seq<Slot>, s': seq<Slot>) {
    && x < |s| == |s'|
    && s[x].node.parent == s'[x].node.parent
    && (p != LeftOf(x) ==> s[x].node.left == s'[x].node.left)
    && (p != RightOf(x) ==> s[x].node.right == s'[x].node.right)
  }

  // ----- search order -----

  ghost predicate Precedes(o: seq<nat>, i: nat, j: nat, s: seq<Slot>) {
    i < j < |o| ==> o[i] < |s| && o[j] < |s| && s[o[i]].data.pid < s[o[j]].data.pid
  }

  /** Slots listed by strictly increasing pid; in particular no slot and no pid occurs twice. */
  ghost predicate Ordered(o: seq<nat>, s: seq<Slot>) {
    && (forall x :: x in o ==> x < |s|)
    && (forall i, j {:trigger Precedes(o, i, j, s)} :: 0 <= i < j < |o| ==> Precedes(o, i, j, s))
  }

  /** Everything left of the hole is below pid, everything right of it is above. */
  ghost predicate Around(c: Context, s: seq<Slot>, pid: int) {
    && (forall x :: x in Before(c) ==> x < |s| && s[x].data.pid < pid)
    && (forall x :: x in After(c) ==> x < |s| && pid < s[x].data.pid)
  }

  lemma Regroup(a: seq<nat>, b: seq<nat>, c: seq<nat>, d: seq<nat>, e: seq<nat>)
    ensures a + (b + c + d) + e == a + b + (c + d + e)
    ensures a + (b + c + d) + e == (a + b + c) + d + e
  {
  }

  lemma {:induction false} InOrderPlug(c: Context, t: Shape)
    ensures InOrder(Plug(c, t)) == Before(c) + InOrder(t) + After(c)
  {
    match c {
      case Hole =>
      case InLeft(up, x, r) =>
        InOrderPlug(up, Node(t, x, r));
        Regroup(Before(up), InOrder(t), [x], InOrder(r), After(up));
      case InRight(l, x, up) =>
        InOrderPlug(up, Node(l, x, t));
        Regroup(Before(up), InOrder(l), [x], InOrder(t), After(up));
    }
  }

  lemma OrderedParts(a: seq<nat>, b: seq<nat>, s: seq<Slot>)
    requires Ordered(a + b, s)
    ensures Ordered(a, s) && Ordered(b, s)
    ensures forall x, y :: x in a && y in b ==> x < |s| && y < |s| && s[x].data.pid < s[y].data.pid
  {
    var o := a + b;
    assert forall x :: x in a || x in b ==> x in o;
    forall i, j | 0 <= i < j < |a| ensures Precedes(a, i, j, s) {
      assert Precedes(o, i, j, s);
    }
    forall i, j | 0 <= i < j < |b| ensures Precedes(b, i, j, s) {
      assert Precedes(o, |a| + i, |a| + j, s);
    }
    forall x, y | x in a && y in b
      ensures x < |s| && y < |s| && s[x].data.pid < s[y].data.pid
    {
      var i :| 0 <= i < |a| && a[i] == x;
      var j :| 0 <= j < |b| && b[j] == y;
      assert x in o && y in o && Precedes(o, i, |a| + j, s);
    }
  }

  lemma OrderedJoin(a: seq<nat>, b: seq<nat>, s: seq<Slot>)
    requires Ordered(a, s) && Ordered(b, s)
    requires forall x, y :: x in a && y in b ==> s[x].data.pid < s[y].data.pid
    ensures Ordered(a + b, s)
  {
    var o := a + b;
    forall i, j | 0 <= i < j < |o|
      ensures Precedes(o, i, j, s)
    {
      if j < |a| {
        assert a[i] in a && a[j] in a && Precedes(a, i, j, s);
      } else if i < |a| {
        assert a[i] in a && b[j - |a|] in b;
      } else {
        assert b[i - |a|] in b && b[j - |a|] in b && Precedes(b, i - |a|, j - |a|, s);
      }
    }
  }

  /** What a search order says about one node and its surroundings. */
  lemma OrderedAt(c: Context, l: Shape, x: nat, r: Shape, s: seq<Slot>)
    requires Ordered(InOrder(Plug(c, Node(l, x, r))), s)
    ensures x < |s|
    ensures forall y :: y in InOrder(l) || y in Before(c) ==> y < |s| && s[y].data.pid < s[x].data.pid
    ensures forall y :: y in InOrder(r) || y in After(c) ==> y < |s| && s[x].data.pid < s[y].data.pid
  {
    InOrderPlug(c, Node(l, x, r));
    var lo, hi := Before(c) + InOrder(l), InOrder(r) + After(c);
    Regroup(Before(c), InOrder(l), [x], InOrder(r), After(c));
    assert InOrder(Plug(c, Node(l, x, r))) == lo + ([x] + hi);
    OrderedParts(lo, [x] + hi, s);
    OrderedParts([x], hi, s);
    assert x in [x] && x in [x] + hi;
    forall y | y in InOrder(l) || y in Before(c)
      ensures y < |s| && s[y].data.pid < s[x].data.pid
    {
      assert y in lo;
    }
    forall y | y in InOrder(r) || y in After(c)
      ensures y < |s| && s[x].data.pid < s[y].data.pid
    {
      assert y in hi && y in [x] + hi;
    }
  }

  // ----- links and contexts -----

  /** The link stored at the hole's place leads to the plugged-in subtree. */
  lemma {:induction false} LinkedAt(c: Context, t: Shape, root: int, s: seq<Slot>)
    requires Linked(Plug(c, t), root, NIL, s)
    ensures Exists(PlaceOf(c), s)
    ensures Linked(t, Deref(PlaceOf(c), root, s), ParentOf(c), s)
  {
    match c {
      case Hole =>
      case InLeft(up, x, r) => LinkedAt(up, Node(t, x, r), root, s);
      case InRight(l, x, up) => LinkedAt(up, Node(l, x, t), root, s);
    }
  }

  lemma {:induction false} LinkedFrame(t: Shape, link: int, parent: int, s: seq<Slot>, s': seq<Slot>)
    requires Linked(t, link, parent, s)
    requires forall x :: x in InOrder(t) ==> SameLinks(x, AtRoot, s, s')
    ensures Linked(t, link, parent, s')
  {
    match t {
      case Leaf =>
      case Node(l, x, r) =>
        assert x in InOrder(t);
        LinkedFrame(l, s[x].node.left, x, s, s');
        LinkedFrame(r, s[x].node.right, x, s, s');
    }
  }

  lemma PlaceListed(c: Context)
    requires c != Hole
    ensures PlaceOf(c).slot in Before(c) || PlaceOf(c).slot in After(c)
  {
  }

  lemma ReplaceLeft(up: Context, x: nat, r: Shape, t: Shape, t': Shape,
                      root: int, s: seq<Slot>, root': int, s': seq<Slot>)
    requires |s| == |s'| && root' == root
    requires Linked(Plug(up, Node(t, x, r)), root, NIL, s)
    requires Ordered(InOrder(Plug(up, Node(t, x, r))), s)
    requires forall y :: y in Before(InLeft(up, x, r)) || y in After(InLeft(up, x, r))
                         ==> SameLinks(y, PlaceOf(InLeft(up, x, r)), s, s')
    requires x < |s'| && Linked(t', s'[x].node.left, x, s')
    ensures forall y :: y in Before(up) || y in After(up) ==> SameLinks(y, AtRoot, s, s')
    ensures Exists(PlaceOf(up), s')
    ensures Linked(Node(t', x, r), Deref(PlaceOf(up), root', s'), ParentOf(up), s')
  {
    var c := InLeft(up, x, r);
    LinkedAt(up, Node(t, x, r), root, s);
    OrderedAt(up, t, x, r, s);
    assert x in After(c);
    forall y | y in InOrder(r) || y in Before(up) || y in After(up)
      ensures SameLinks(y, AtRoot, s, s')
    {
      assert y in Before(c) || y in After(c);
    }
    LinkedFrame(r, s[x].node.right, x, s, s');
    if up != Hole {
      PlaceListed(up);
    }
  }

  lemma ReplaceRight(up: Context, l: Shape, x: nat, t: Shape, t': Shape,
                      root: int, s: seq<Slot>, root': int, s': seq<Slot>)
    requires |s| == |s'| && root' == root
    requires Linked(Plug(up, Node(l, x, t)), root, NIL, s)
    requires Ordered(InOrder(Plug(up, Node(l, x, t))), s)
    requires forall y :: y in Before(InRight(l, x, up)) || y in After(InRight(l, x, up))
                         ==> SameLinks(y, PlaceOf(InRight(l, x, up)), s, s')
    requires x < |s'| && Linked(t', s'[x].node.right, x, s')
    ensures forall y :: y in Before(up) || y in After(up) ==> SameLinks(y, AtRoot, s, s')
    ensures Exists(PlaceOf(up), s')
    ensures Linked(Node(l, x, t'), Deref(PlaceOf(up), root', s'), ParentOf(up), s')
  {
    var c := InRight(l, x, up);
    LinkedAt(up, Node(l, x, t), root, s);
    OrderedAt(up, l, x, t, s);
    assert x in Before(c);
    forall y | y in InOrder(l) || y in Before(up) || y in After(up)
      ensures SameLinks(y, AtRoot, s, s')
    {
      assert y in Before(c) || y in After(c);
    }
    LinkedFrame(l, s[x].node.left, x, s, s');
    if up != Hole {
      PlaceListed(up);
    }
  }

  /** Overwriting the link at one place replaces the subtree below it and nothing else. */
  lemma {:induction false} ReplaceSubtree(c: Context, t: Shape, t': Shape,
                                          root: int, s: seq<Slot>, root': int, s': seq<Slot>)
    requires |s| == |s'|
    requires Linked(Plug(c, t), root, NIL, s)
    requires Ordered(InOrder(Plug(c, t)), s)
    requires c == Hole || root' == root
    requires forall x :: x in Before(c) || x in After(c) ==> SameLinks(x, PlaceOf(c), s, s')
    requires Exists(PlaceOf(c), s') && Linked(t', Deref(PlaceOf(c), root', s'), ParentOf(c), s')
    ensures Linked(Plug(c, t'), root', NIL, s')
  {
    match c {
      case Hole =>
      case InLeft(up, x, r) =>
        ReplaceLeft(up, x, r, t, t', root, s, root', s');
        ReplaceSubtree(up, Node(t, x, r), Node(t', x, r), root, s, root', s');
      case InRight(l, x, up) =>
        ReplaceRight(up, l, x, t, t', root, s, root', s');
        ReplaceSubtree(up, Node(l, x, t), Node(l, x, t'), root, s, root', s');
    }
  }

  // ----- descending towards a pid -----

  /** The descent for pid has reached the subtree cur through the link value link. */
  ghost predicate Walk(t: Shape, c: Context, cur: Shape, link: int, s: seq<Slot>, pid: int) {
    && Ordered(InOrder(t), s)
    && t == Plug(c, cur)
    && Linked(cur, link, ParentOf(c), s)
    && Around(c, s, pid)
  }

  /** Going left below a larger pid, or right below a smaller one, keeps the pid's gap inside the subtree. */
  lemma WalkDown(t: Shape, c: Context, l: Shape, x: nat, r: Shape, s: seq<Slot>, pid: int)
    requires Walk(t, c, Node(l, x, r), x, s, pid)
    ensures x < |s|
    ensures pid < s[x].data.pid ==> Walk(t, InLeft(c, x, r), l, s[x].node.left, s, pid)
    ensures pid > s[x].data.pid ==> Walk(t, InRight(l, x, c), r, s[x].node.right, s, pid)
  {
    OrderedAt(c, l, x, r, s);
  }

  /** The descent ends at a node of the tree, or at a gap: then no node carries the pid. */
  lemma WalkEnd(t: Shape, c: Context, cur: Shape, link: int, s: seq<Slot>, pid: int)
    requires Walk(t, c, cur, link, s, pid)
    ensures cur.Leaf? <==> link == NIL
    ensures cur.Node? ==> cur.slot == link && cur.slot in InOrder(t)
    ensures cur.Leaf? ==> forall x :: x in InOrder(t) ==> x < |s| && s[x].data.pid != pid
  {
    InOrderPlug(c, cur);
    RootInOrder(cur, link, ParentOf(c), s);
  }

  /** Every place of a tree is the hole of some context. */
  lemma {:induction false} FindPlace(c: Context, t: Shape, p: Place) returns (c': Context, t': Shape)
    requires p == PlaceOf(c) || (!p.AtRoot? && p.slot in InOrder(t))
    ensures Plug(c', t') == Plug(c, t) && PlaceOf(c') == p
    decreases t
  {
    if p == PlaceOf(c) {
      c', t' := c, t;
    } else {
      var Node(l, x, r) := t;
      if p == LeftOf(x) || p.slot in InOrder(l) {
        c', t' := FindPlace(InLeft(c, x, r), l, p);
      } else {
        c', t' := FindPlace(InRight(l, x, c), r, p);
      }
    }
  }

  // ----- rotations -----

  /** A subtree whose root was handed to another parent, everything else untouched. */
  lemma Reparented(t: Shape, link: int, parent: int, parent': int, s: seq<Slot>, s': seq<Slot>)
    requires |s| == |s'| && Linked(t, link, parent, s) && Ordered(InOrder(t), s)
    requires forall x :: x in InOrder(t) && x != link ==> SameLinks(x, AtRoot, s, s')
    requires t.Node? ==> s'[link].node.left == s[link].node.left && s'[link].node.right == s[link].node.right
    requires t.Node? ==> s'[link].node.parent == parent'
    ensures Linked(t, link, parent', s')
  {
    if t.Node? {
      OrderedAt(Hole, t.left, t.slot, t.right, s);
      forall y | y in InOrder(t.left) || y in InOrder(t.right)
        ensures y != t.slot && y in InOrder(t)
      {
      }
      LinkedFrame(t.left, s[t.slot].node.left, t.slot, s, s');
      LinkedFrame(t.right, s[t.slot].node.right, t.slot, s, s');
    }
  }

  /** The memory after a rotation of the edge between x (left) and y (right), b being the subtree between them. */
  ghost predicate Rotated(x: nat, y: nat, mid: int, p: Place, s: seq<Slot>, s': seq<Slot>) {
    && x < |s| == |s'| && y < |s|
    && (forall k: nat :: k < |s| && k != x && k != y && k != mid ==> SameLinks(k, p, s, s'))
    && (0 <= mid < |s| ==> s'[mid].node.left == s[mid].node.left && s'[mid].node.right == s[mid].node.right)
    && s'[x].node.left == s[x].node.left
    && s'[y].node.right == s[y].node.right
  }

  /** The five parts of a two-node subtree and its surroundings, in pid order. */
  ghost predicate Arranged(c: Context, a: Shape, x: nat, b: Shape, y: nat, d: Shape, s: seq<Slot>) {
    && x < |s| && y < |s|
    && s[x].data.pid < s[y].data.pid
    && (forall k :: k in InOrder(a) || k in Before(c) ==> k < |s| && s[k].data.pid < s[x].data.pid)
    && (forall k :: k in InOrder(b) ==> k < |s| && s[x].data.pid < s[k].data.pid < s[y].data.pid)
    && (forall k :: k in InOrder(d) || k in After(c) ==> k < |s| && s[y].data.pid < s[k].data.pid)
    && Ordered(InOrder(b), s)
  }

  lemma OrderedSubtree(c: Context, t: Shape, s: seq<Slot>)
    requires Ordered(InOrder(Plug(c, t)), s)
    ensures Ordered(InOrder(t), s)
  {
    InOrderPlug(c, t);
    OrderedParts(Before(c) + InOrder(t), After(c), s);
    OrderedParts(Before(c), InOrder(t), s);
  }

  lemma ArrangedLeft(c: Context, a: Shape, x: nat, b: Shape, y: nat, d: Shape, s: seq<Slot>)
    requires Ordered(InOrder(Plug(c, Node(Node(a, x, b), y, d))), s)
    ensures Arranged(c, a, x, b, y, d, s)
  {
    OrderedAt(c, Node(a, x, b), y, d, s);
    OrderedAt(InLeft(c, y, d), a, x, b, s);
    OrderedSubtree(InRight(a, x, InLeft(c, y, d)), b, s);
    assert forall k :: k == x || k in InOrder(b) ==> k in InOrder(Node(a, x, b));
  }

  lemma ArrangedRight(c: Context, a: Shape, x: nat, b: Shape, y: nat, d: Shape, s: seq<Slot>)
    requires Ordered(InOrder(Plug(c, Node(a, x, Node(b, y, d)))), s)
    ensures Arranged(c, a, x, b, y, d, s)
  {
    OrderedAt(c, a, x, Node(b, y, d), s);
    OrderedAt(InRight(a, x, c), b, y, d, s);
    OrderedSubtree(InLeft(InRight(a, x, c), y, d), b, s);
    assert forall k :: k == y || k in InOrder(b) ==> k in InOrder(Node(b, y, d));
  }

  /** Both orientations of an edge list the same slots in the same order. */
  lemma RotationKeepsOrder(a: Shape, x: nat, b: Shape, y: nat, d: Shape)
    ensures InOrder(Node(Node(a, x, b), y, d)) == InOrder(Node(a, x, Node(b, y, d)))
    ensures forall k :: k in InOrder(a) || k in InOrder(b) || k in InOrder(d)
                        ==> k in InOrder(Node(a, x, Node(b, y, d)))
  {
    var whole := InOrder(a) + [x] + InOrder(b) + [y] + InOrder(d);
    assert InOrder(Node(Node(a, x, b), y, d)) == whole by {
      assert InOrder(Node(a, x, b)) == InOrder(a) + [x] + InOrder(b);
    }
    assert InOrder(Node(a, x, Node(b, y, d))) == whole by {
      assert InOrder(Node(b, y, d)) == InOrder(b) + [y] + InOrder(d);
    }
    forall k | k in InOrder(a) || k in InOrder(b) || k in InOrder(d)
      ensures k in whole
    {
    }
  }

  /** The node that stores the link to a subtree is not part of that subtree. */
  lemma PlaceOutside(c: Context, t: Shape, s: seq<Slot>)
    requires Ordered(InOrder(Plug(c, t)), s)
    ensures c.Hole? || PlaceOf(c).slot !in InOrder(t)
  {
    match c {
      case Hole =>
      case InLeft(up, z, r) => OrderedAt(up, t, z, r, s);
      case InRight(l, z, up) => OrderedAt(up, l, z, t, s);
    }
  }

  lemma RootInOrder(t: Shape, link: int, parent: int, s: seq<Slot>)
    requires Linked(t, link, parent, s)
    ensures link == NIL || link in InOrder(t)
    ensures t.Leaf? <==> link == NIL
  {
  }

  ghost predicate Elsewhere(p: Place, a: Shape, b: Shape, d: Shape) {
    p.AtRoot? || (p.slot !in InOrder(a) && p.slot !in InOrder(b) && p.slot !in InOrder(d))
  }

  lemma EdgePlace(c: Context, a: Shape, x: nat, b: Shape, y: nat, d: Shape, t: Shape, s: seq<Slot>)
    requires t == Node(Node(a, x, b), y, d) || t == Node(a, x, Node(b, y, d))
    requires Ordered(InOrder(Plug(c, t)), s)
    ensures Elsewhere(PlaceOf(c), a, b, d)
  {
    PlaceOutside(c, t, s);
    RotationKeepsOrder(a, x, b, y, d);
  }

  lemma UntouchedAt(k: nat, x: nat, y: nat, mid: int, p: Place, s: seq<Slot>, s': seq<Slot>)
    requires Rotated(x, y, mid, p, s, s')
    requires k < |s| && k != x && k != y && k != mid
    ensures SameLinks(k, p, s, s')
  {
  }

  /** A rotation writes no link of the outer subtrees, of their surroundings, or below b's root. */
  lemma Untouched(c: Context, a: Shape, x: nat, b: Shape, y: nat, d: Shape, mid: int, s: seq<Slot>, s': seq<Slot>)
    requires Arranged(c, a, x, b, y, d, s) && Elsewhere(PlaceOf(c), a, b, d)
    requires Rotated(x, y, mid, PlaceOf(c), s, s')
    requires mid == NIL || mid in InOrder(b)
    ensures forall k :: k in InOrder(a) || k in InOrder(d) ==> SameLinks(k, AtRoot, s, s')
    ensures forall k :: k in InOrder(b) && k != mid ==> SameLinks(k, AtRoot, s, s')
    ensures forall k :: k in Before(c) || k in After(c) ==> SameLinks(k, PlaceOf(c), s, s')
  {
    forall k | k in InOrder(a) || k in InOrder(d) || k in Before(c) || k in After(c)
      ensures SameLinks(k, PlaceOf(c), s, s')
    {
      UntouchedAt(k, x, y, mid, PlaceOf(c), s, s');
    }
    forall k | k in InOrder(b) && k != mid
      ensures SameLinks(k, PlaceOf(c), s, s')
    {
      UntouchedAt(k, x, y, mid, PlaceOf(c), s, s');
    }
  }

  lemma RotateLeftLinked(c: Context, a: Shape, x: nat, b: Shape, y: nat, d: Shape,
                         root: int, s: seq<Slot>, root': int, s': seq<Slot>)
    requires Linked(Plug(c, Node(a, x, Node(b, y, d))), root, NIL, s)
    requires Ordered(InOrder(Plug(c, Node(a, x, Node(b, y, d)))), s)
    requires y < |s| && Rotated(x, y, s[y].node.left, PlaceOf(c), s, s')
    requires s'[x].node.right == s[y].node.left && s'[x].node.parent == y
    requires s'[y].node.left == x && s'[y].node.parent == ParentOf(c)
    requires 0 <= s[y].node.left < |s| ==> s'[s[y].node.left].node.parent == x
    requires c == Hole || root' == root
    requires Exists(PlaceOf(c), s') && Deref(PlaceOf(c), root', s') == y
    ensures Linked(Plug(c, Node(Node(a, x, b), y, d)), root', NIL, s')
  {
    var t, t' := Node(a, x, Node(b, y, d)), Node(Node(a, x, b), y, d);
    ArrangedRight(c, a, x, b, y, d, s);
    EdgePlace(c, a, x, b, y, d, t, s);
    LinkedAt(c, t, root, s);
    var mid := s[y].node.left;
    RootInOrder(b, mid, y, s);
    Untouched(c, a, x, b, y, d, mid, s, s');
    LinkedFrame(a, s[x].node.left, x, s, s');
    LinkedFrame(d, s[y].node.right, y, s, s');
    Reparented(b, mid, y, x, s, s');
    ReplaceSubtree(c, t, t', root, s, root', s');
  }

  lemma RotateRightLinked(c: Context, a: Shape, x: nat, b: Shape, y: nat, d: Shape,
                          root: int, s: seq<Slot>, root': int, s': seq<Slot>)
    requires Linked(Plug(c, Node(Node(a, x, b), y, d)), root, NIL, s)
    requires Ordered(InOrder(Plug(c, Node(Node(a, x, b), y, d))), s)
    requires x < |s| && Rotated(x, y, s[x].node.right, PlaceOf(c), s, s')
    requires s'[y].node.left == s[x].node.right && s'[y].node.parent == x
    requires s'[x].node.right == y && s'[x].node.parent == ParentOf(c)
    requires 0 <= s[x].node.right < |s| ==> s'[s[x].node.right].node.parent == y
    requires c == Hole || root' == root
    requires Exists(PlaceOf(c), s') && Deref(PlaceOf(c), root', s') == x
    ensures Linked(Plug(c, Node(a, x, Node(b, y, d))), root', NIL, s')
  {
    var t, t' := Node(Node(a, x, b), y, d), Node(a, x, Node(b, y, d));
    ArrangedLeft(c, a, x, b, y, d, s);
    EdgePlace(c, a, x, b, y, d, t, s);
    LinkedAt(c, t, root, s);
    var mid := s[x].node.right;
    RootInOrder(b, mid, x, s);
    Untouched(c, a, x, b, y, d, mid, s, s');
    LinkedFrame(a, s[x].node.left, x, s, s');
    LinkedFrame(d, s[y].node.right, y, s, s');
    Reparented(b, mid, x, y, s, s');
    ReplaceSubtree(c, t, t', root, s, root', s');
  }
}
