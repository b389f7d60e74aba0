/** The dotted-path updates of src/user/uroam_cli.py on the nested configuration dictionary. */
module ConfigTree {
  import opened ConfigText
  import opened Options

  datatype Value = Scalar(literal: Literal) | Dict(items: map<string, Value>)

  /** TypeMismatch: the walk meets a scalar where the code calls get or assigns an item. */
  datatype Outcome = Done(tree: Value) | TypeMismatch

  /** Following keys from the root; None if a key is missing or a scalar is in the way. */
  function Lookup(t: Value, p: seq<string>): Option<Value> {
    if p == [] then Some(t)
    else if t.Dict? && p[0] in t.items then Lookup(t.items[p[0]], p[1..])
    else None
  }

  /**
   * The walk config = config.get(part, {}) over all parts but the last, then the assignment. A missing
   * part continues in a fresh dictionary that belongs to nobody, so the tree stays as it is.
   */
  function Assign(t: Value, p: Path, v: Value): Outcome {
    if t.Scalar? then TypeMismatch
    else if |p| == 1 then Done(Dict(t.items[p[0] := v]))
    else if p[0] !in t.items then Done(t)
    else
      match Assign(t.items[p[0]], p[1..], v)
      case TypeMismatch => TypeMismatch
      case Done(sub) => Done(Dict(t.items[p[0] := sub]))
  }

  /** The dictionary the last key is to be put into exists. */
  predicate PrefixExists(t: Value, p: Path) {
    var parent := Lookup(t, p[..|p| - 1]);
    parent.Some? && parent.value.Dict?
  }

  /** Somewhere along the way stands a scalar. */
  predicate ScalarInWay(t: Value, p: Path) {
    exists n | 0 <= n < |p| :: Lookup(t, p[..n]).Some? && Lookup(t, p[..n]).value.Scalar?
  }

  predicate Overlap(p: seq<string>, q: seq<string>) { p <= q || q <= p }

  lemma LookupStep(t: Value, p: seq<string>, n: nat)
    requires 0 < n <= |p| && t.Dict? && p[0] in t.items
    ensures Lookup(t, p[..n]) == Lookup(t.items[p[0]], p[1..][..n - 1])
  {
    assert p[..n][1..] == p[1..][..n - 1];
  }

  /** An update fails exactly if a scalar is in the way; nothing is changed then. */
  lemma {:induction false} FailsIffScalarInWay(t: Value, p: Path, v: Value)
    ensures Assign(t, p, v).TypeMismatch? <==> ScalarInWay(t, p)
    decreases p
  {
    assert p[..0] == [];
    if t.Scalar? {
      assert Lookup(t, p[..0]).value.Scalar?;
    } else if |p| == 1 || p[0] !in t.items {
      forall n | 0 <= n < |p|
        ensures !(Lookup(t, p[..n]).Some? && Lookup(t, p[..n]).value.Scalar?)
      {
        if n > 0 {
          assert p[..n][0] == p[0];
        }
      }
    } else {
      var sub, rest := t.items[p[0]], p[1..];
      FailsIffScalarInWay(sub, rest, v);
      forall n | 0 < n < |p|
        ensures Lookup(t, p[..n]) == Lookup(sub, rest[..n - 1])
      {
        LookupStep(t, p, n);
      }
      if ScalarInWay(sub, rest) {
        var m :| 0 <= m < |rest| && Lookup(sub, rest[..m]).Some? && Lookup(sub, rest[..m]).value.Scalar?;
        LookupStep(t, p, m + 1);
        assert Lookup(t, p[..m + 1]).Some? && Lookup(t, p[..m + 1]).value.Scalar?;
      }
      if ScalarInWay(t, p) {
        var n :| 0 <= n < |p| && Lookup(t, p[..n]).Some? && Lookup(t, p[..n]).value.Scalar?;
        LookupStep(t, p, n);
        assert Lookup(sub, rest[..n - 1]).Some?;
      }
    }
  }

  /** The written value is read back exactly if the prefix exists. */
  lemma {:induction false} ReadBackIffPrefixExists(t: Value, p: Path, v: Value)
    requires Assign(t, p, v).Done?
    ensures PrefixExists(t, p) ==> Lookup(Assign(t, p, v).tree, p) == Some(v)
    ensures !PrefixExists(t, p) ==> Assign(t, p, v).tree == t && Lookup(t, p) == None
    decreases p
  {
    if |p| == 1 {
      assert p[..0] == [] && p[1..] == [];
    } else if p[0] in t.items {
      var sub, rest := t.items[p[0]], p[1..];
      ReadBackIffPrefixExists(sub, rest, v);
      LookupStep(t, p, |p| - 1);
      assert rest[..|rest| - 1] == p[1..][..|p| - 2];
      if !PrefixExists(sub, rest) {
        assert t.items[p[0] := sub] == t.items;
      }
    } else {
      assert p[..|p| - 1][0] == p[0];
    }
  }

  /** Every path that neither continues nor is continued by the updated one keeps its value. */
  lemma {:induction false} OthersUnchanged(t: Value, p: Path, v: Value, q: seq<string>)
    requires Assign(t, p, v).Done? && !Overlap(p, q)
    ensures Lookup(Assign(t, p, v).tree, q) == Lookup(t, q)
    decreases p
  {
    assert q != [];
    if |p| > 1 && p[0] in t.items && p[0] == q[0] {
      assert p == [p[0]] + p[1..] && q == [q[0]] + q[1..];
      OthersUnchanged(t.items[p[0]], p[1..], v, q[1..]);
    } else if |p| == 1 {
      assert p[0] == q[0] ==> p <= q;
    }
  }

  /** A number set under a typed path is read back there as that number, unless the prefix is missing. */
  lemma NumberReadsBack(t: Value, p: Path, n: nat, other: Option<Literal>)
    requires NoDots(p) && Assign(t, p, Scalar(Int(n))).Done?
    ensures var r := Assign(t, Split(Join(p)), Scalar(Convert(Decimal(n), other)));
            r.Done? && Lookup(r.tree, p) == if PrefixExists(t, p) then Some(Scalar(Int(n))) else None
  {
    SplitJoin(p);
    ConvertDecimal(n, other);
    ReadBackIffPrefixExists(t, p, Scalar(Int(n)));
  }

  /** So is one of the two words in any spelling, and a text that nothing else takes. */
  lemma WordsReadBack(t: Value, p: Path, v: string, other: Option<Literal>)
    requires NoDots(p) && !ScalarInWay(t, p)
    ensures var r := Assign(t, Split(Join(p)), Scalar(Convert(v, other)));
            && r.Done? && (!PrefixExists(t, p) ==> r.tree == t)
            && (PrefixExists(t, p) && SpellsTrue(v) ==> Lookup(r.tree, p) == Some(Scalar(Bool(true))))
            && (PrefixExists(t, p) && SpellsFalse(v) ==> Lookup(r.tree, p) == Some(Scalar(Bool(false))))
            && (PrefixExists(t, p) && !SpellsTrue(v) && !SpellsFalse(v) && !IsDecimal(v) && other == None
                ==> Lookup(r.tree, p) == Some(Scalar(Str(v))))
  {
    SplitJoin(p);
    ConvertInValues(v, other);
    FailsIffScalarInWay(t, p, Scalar(Convert(v, other)));
    ReadBackIffPrefixExists(t, p, Scalar(Convert(v, other)));
  }

  // ----- dictionaries as mutable objects -----

  /** An item of a dictionary: a scalar, or a reference to another dictionary object. */
  datatype Item = Atom(literal: Literal) | Ref(id: nat)

  type Heap = map<nat, map<string, Item>>

  /** The tree a reference leads to, with the object behind every dictionary. */
  datatype Shape = Leaf(literal: Literal) | Node(id: nat, kids: map<string, Shape>)

  ghost function AsValue(sh: Shape): Value {
    match sh
    case Leaf(t) => Scalar(t)
    case Node(_, kids) => Dict(map k | k in kids :: AsValue(kids[k]))
  }

  ghost function AsItem(sh: Shape): Item {
    match sh
    case Leaf(t) => Atom(t)
    case Node(id, _) => Ref(id)
  }

  ghost function Ids(sh: Shape): set<nat> {
    match sh
    case Leaf(_) => {}
    case Node(id, kids) => {id} + set k, i | k in kids && i in Ids(kids[k]) :: i
  }

  ghost predicate Apart(kids: map<string, Shape>, j: string, k: string)
    requires j in kids && k in kids
  {
    j != k ==> Ids(kids[j]) !! Ids(kids[k])
  }

  /** The heap holds exactly this tree; no dictionary occurs twice in it. */
  ghost predicate Stands(sh: Shape, h: Heap) {
    match sh
    case Leaf(_) => true
    case Node(id, kids) =>
      && id in h && h[id].Keys == kids.Keys
      && (forall k :: k in kids ==> h[id][k] == AsItem(kids[k]) && id !in Ids(kids[k]) && Stands(kids[k], h))
      && (forall j, k :: j in kids && k in kids ==> Apart(kids, j, k))
  }

  ghost function Sub(sh: Shape, p: seq<string>): Option<Shape> {
    if p == [] then Some(sh)
    else if sh.Node? && p[0] in sh.kids then Sub(sh.kids[p[0]], p[1..])
    else None
  }

  ghost function Put(sh: Shape, p: Path, literal: Literal): Shape {
    if sh.Leaf? then sh
    else if |p| == 1 then Node(sh.id, sh.kids[p[0] := Leaf(literal)])
    else if p[0] !in sh.kids then sh
    else Node(sh.id, sh.kids[p[0] := Put(sh.kids[p[0]], p[1..], literal)])
  }

  lemma {:induction false} LookupIsSub(sh: Shape, p: seq<string>)
    ensures Lookup(AsValue(sh), p) == match Sub(sh, p) { case None => None case Some(x) => Some(AsValue(x)) }
    decreases p
  {
    if p != [] && sh.Node? && p[0] in sh.kids {
      LookupIsSub(sh.kids[p[0]], p[1..]);
    }
  }

  lemma {:induction false} SubNext(sh: Shape, p: seq<string>, k: string)
    ensures Sub(sh, p + [k]) == match Sub(sh, p) {
              case None => None
              case Some(x) => if x.Node? && k in x.kids then Some(x.kids[k]) else None
            }
    decreases p
  {
    if p == [] {
      assert [k][1..] == [];
    } else {
      assert (p + [k])[0] == p[0] && (p + [k])[1..] == p[1..] + [k];
      if sh.Node? && p[0] in sh.kids {
        SubNext(sh.kids[p[0]], p[1..], k);
      }
    }
  }

  lemma {:induction false} SubStands(sh: Shape, p: seq<string>, h: Heap)
    requires Stands(sh, h) && Sub(sh, p).Some?
    ensures Stands(Sub(sh, p).value, h) && Ids(Sub(sh, p).value) <= Ids(sh)
    decreases p
  {
    if p != [] {
      SubStands(sh.kids[p[0]], p[1..], h);
      forall i | i in Ids(sh.kids[p[0]]) ensures i in Ids(sh) {}
    }
  }

  /** Objects outside the tree do not matter to it. */
  lemma {:induction false} StandsFrame(sh: Shape, h: Heap, h': Heap)
    requires Stands(sh, h) && forall i :: i in Ids(sh) ==> i in h && i in h' && h'[i] == h[i]
    ensures Stands(sh, h')
  {
    if sh.Node? {
      assert sh.id in Ids(sh);
      forall k | k in sh.kids
        ensures Stands(sh.kids[k], h')
      {
        forall i | i in Ids(sh.kids[k]) ensures i in Ids(sh) {}
        StandsFrame(sh.kids[k], h, h');
      }
    }
  }

  lemma {:induction false} IdsInHeap(sh: Shape, h: Heap)
    requires Stands(sh, h)
    ensures Ids(sh) <= h.Keys
  {
    if sh.Node? {
      forall k | k in sh.kids ensures Ids(sh.kids[k]) <= h.Keys {
        IdsInHeap(sh.kids[k], h);
      }
    }
  }

  ghost function WithKid(sh: Shape, key: string, kid: Shape): Shape
    requires sh.Node?
  {
    Node(sh.id, sh.kids[key := kid])
  }

  /** kid uses no other objects than the one it replaces. */
  ghost predicate Replaces(kid: Shape, sh: Shape, key: string)
    requires sh.Node?
  {
    Ids(kid) <= if key in sh.kids then Ids(sh.kids[key]) else {}
  }

  lemma IdsWithKid(sh: Shape, key: string, kid: Shape)
    requires sh.Node? && Replaces(kid, sh, key)
    ensures Ids(WithKid(sh, key, kid)) <= Ids(sh)
  {
    var kids' := sh.kids[key := kid];
    forall i | i in Ids(Node(sh.id, kids'))
      ensures i in Ids(sh)
    {
      if i != sh.id {
        var k :| k in kids' && i in Ids(kids'[k]);
        assert k in sh.kids && i in Ids(sh.kids[k]);
      }
    }
  }

  lemma ApartWithKid(sh: Shape, key: string, kid: Shape, j: string, k: string)
    requires sh.Node? && Replaces(kid, sh, key) && j in sh.kids[key := kid] && k in sh.kids[key := kid]
    requires j in sh.kids && k in sh.kids ==> Apart(sh.kids, j, k)
    ensures Apart(sh.kids[key := kid], j, k)
  {
  }

  /** One key of a dictionary is right: item, no cycle, and the tree below. */
  ghost predicate KidStands(id: nat, kids: map<string, Shape>, k: string, h: Heap)
    requires k in kids
  {
    id in h && k in h[id] && h[id][k] == AsItem(kids[k]) && id !in Ids(kids[k]) && Stands(kids[k], h)
  }

  lemma NodeStands(id: nat, kids: map<string, Shape>, h: Heap)
    requires id in h && h[id].Keys == kids.Keys
    requires forall k {:trigger KidStands(id, kids, k, h)} :: k in kids ==> KidStands(id, kids, k, h)
    requires forall j, k {:trigger Apart(kids, j, k)} :: j in kids && k in kids ==> Apart(kids, j, k)
    ensures Stands(Node(id, kids), h)
  {
    forall k | k in kids
      ensures h[id][k] == AsItem(kids[k]) && id !in Ids(kids[k]) && Stands(kids[k], h)
    {
      assert KidStands(id, kids, k, h);
    }
  }

  lemma KidWithKid(sh: Shape, key: string, kid: Shape, h: Heap, h': Heap, k: string)
    requires sh.Node? && Stands(sh, h) && Replaces(kid, sh, key)
    requires sh.id in h' && h'[sh.id] == h[sh.id][key := AsItem(kid)]
    requires k == key ==> Stands(kid, h')
    requires k != key ==> k in sh.kids && Stands(sh.kids[k], h')
    ensures KidStands(sh.id, sh.kids[key := kid], k, h')
  {
  }

  /** A dictionary with one kid replaced stands where that kid and the others stand. */
  lemma StandsWithKid(sh: Shape, key: string, kid: Shape, h: Heap, h': Heap)
    requires sh.Node? && Stands(sh, h) && Replaces(kid, sh, key)
    requires sh.id in h' && h'[sh.id] == h[sh.id][key := AsItem(kid)]
    requires Stands(kid, h')
    requires forall k :: k in sh.kids && k != key ==> Stands(sh.kids[k], h')
    ensures Stands(WithKid(sh, key, kid), h')
  {
    var kids' := sh.kids[key := kid];
    forall k {:trigger KidStands(sh.id, kids', k, h')} | k in kids'
      ensures KidStands(sh.id, kids', k, h')
    {
      KidWithKid(sh, key, kid, h, h', k);
    }
    forall j, k {:trigger Apart(kids', j, k)} | j in kids' && k in kids'
      ensures Apart(kids', j, k)
    {
      ApartWithKid(sh, key, kid, j, k);
    }
    NodeStands(sh.id, kids', h');
  }

  lemma ValueWithKid(sh: Shape, key: string, kid: Shape)
    requires sh.Node?
    ensures AsValue(WithKid(sh, key, kid)) == Dict(AsValue(sh).items[key := AsValue(kid)])
  {
    assert AsValue(WithKid(sh, key, kid)).items == AsValue(sh).items[key := AsValue(kid)];
  }

  function Written(h: Heap, id: nat, key: string, literal: Literal): Heap
    requires id in h
  {
    h[id := h[id][key := Atom(literal)]]
  }

  lemma AssignHere(sh: Shape, key: string, literal: Literal, h: Heap)
    requires Stands(sh, h) && sh.Node?
    ensures Stands(WithKid(sh, key, Leaf(literal)), Written(h, sh.id, key, literal))
  {
    var h' := Written(h, sh.id, key, literal);
    forall k | k in sh.kids ensures Stands(sh.kids[k], h') {
      IdsInHeap(sh.kids[k], h);
      StandsFrame(sh.kids[k], h, h');
    }
    StandsWithKid(sh, key, Leaf(literal), h, h');
  }

  lemma OtherKidsStand(sh: Shape, key: string, k: string, h: Heap, id: nat, last: string, literal: Literal)
    requires Stands(sh, h) && sh.Node? && key in sh.kids && k in sh.kids && k != key
    requires id in Ids(sh.kids[key]) && id in h
    ensures Stands(sh.kids[k], Written(h, id, last, literal))
  {
    assert Apart(sh.kids, key, k);
    IdsInHeap(sh.kids[k], h);
    StandsFrame(sh.kids[k], h, Written(h, id, last, literal));
  }

  lemma SameItems(sh: Shape, key: string, kid: Shape, h: Heap)
    requires Stands(sh, h) && sh.Node? && key in sh.kids && AsItem(kid) == AsItem(sh.kids[key])
    ensures sh.id in h && h[sh.id][key := AsItem(kid)] == h[sh.id]
  {
    assert h[sh.id][key] == AsItem(kid);
  }

  lemma AssignBelow(sh: Shape, key: string, kid: Shape, h: Heap, id: nat, last: string, literal: Literal)
    requires Stands(sh, h) && sh.Node? && key in sh.kids && Replaces(kid, sh, key)
    requires id in Ids(sh.kids[key]) && id in h
    requires Stands(kid, Written(h, id, last, literal)) && AsItem(kid) == AsItem(sh.kids[key])
    ensures Stands(WithKid(sh, key, kid), Written(h, id, last, literal))
  {
    var h' := Written(h, id, last, literal);
    forall k | k in sh.kids && k != key ensures Stands(sh.kids[k], h') {
      OtherKidsStand(sh, key, k, h, id, last, literal);
    }
    SameItems(sh, key, kid, h);
    StandsWithKid(sh, key, kid, h, h');
  }

  /** What the assignment means for the tree. */
  lemma {:induction false} PutIsAssign(sh: Shape, p: Path, literal: Literal)
    requires Sub(sh, p[..|p| - 1]).Some? && Sub(sh, p[..|p| - 1]).value.Node?
    ensures Assign(AsValue(sh), p, Scalar(literal)) == Done(AsValue(Put(sh, p, literal)))
    ensures sh.Node? && Put(sh, p, literal).Node? && Put(sh, p, literal).id == sh.id
    decreases p
  {
    var front := p[..|p| - 1];
    if |p| == 1 {
      assert front == [];
      ValueWithKid(sh, p[0], Leaf(literal));
    } else {
      assert front[0] == p[0] && front[1..] == p[1..][..|p[1..]| - 1];
      PutIsAssign(sh.kids[p[0]], p[1..], literal);
      ValueWithKid(sh, p[0], Put(sh.kids[p[0]], p[1..], literal));
    }
  }

  /** The one assignment in place: the last key in the dictionary the prefix leads to. */
  lemma {:induction false} AssignInPlace(sh: Shape, p: Path, literal: Literal, h: Heap, id: nat)
    requires Stands(sh, h) && Sub(sh, p[..|p| - 1]).Some?
    requires Sub(sh, p[..|p| - 1]).value.Node? && Sub(sh, p[..|p| - 1]).value.id == id
    ensures id in h && id in Ids(sh)
    ensures Stands(Put(sh, p, literal), Written(h, id, p[|p| - 1], literal)) && Ids(Put(sh, p, literal)) <= Ids(sh)
    decreases p
  {
    var front := p[..|p| - 1];
    if |p| == 1 {
      assert front == [] && sh.id in Ids(sh);
      AssignHere(sh, p[0], literal, h);
      IdsWithKid(sh, p[0], Leaf(literal));
    } else {
      var key, kid, rest := p[0], sh.kids[p[0]], p[1..];
      assert front[0] == key && front[1..] == rest[..|rest| - 1] && p[|p| - 1] == rest[|rest| - 1];
      AssignInPlace(kid, rest, literal, h, id);
      PutIsAssign(kid, rest, literal);
      var kid' := Put(kid, rest, literal);
      assert Replaces(kid', sh, key);
      AssignBelow(sh, key, kid', h, id, p[|p| - 1], literal);
      IdsWithKid(sh, key, kid');
      assert Put(sh, p, literal) == WithKid(sh, key, kid');
    }
  }

  ghost predicate NoLeafAt(sh: Shape, p: Path, n: nat)
    requires n < |p|
  {
    Sub(sh, p[..n]).Some? ==> Sub(sh, p[..n]).value.Node?
  }

  ghost predicate NoLeafUpTo(sh: Shape, p: Path, i: nat)
    requires i < |p|
  {
    forall n: nat {:trigger NoLeafAt(sh, p, n)} :: n <= i ==> NoLeafAt(sh, p, n)
  }

  lemma NoScalarInWay(sh: Shape, p: Path)
    requires NoLeafUpTo(sh, p, |p| - 1)
    ensures !ScalarInWay(AsValue(sh), p)
  {
    forall n | 0 <= n < |p|
      ensures !(Lookup(AsValue(sh), p[..n]).Some? && Lookup(AsValue(sh), p[..n]).value.Scalar?)
    {
      assert NoLeafAt(sh, p, n);
      LookupIsSub(sh, p[..n]);
    }
  }

  lemma LeafInWay(sh: Shape, p: Path, n: nat)
    requires n < |p| && !NoLeafAt(sh, p, n)
    ensures ScalarInWay(AsValue(sh), p)
  {
    LookupIsSub(sh, p[..n]);
    assert Lookup(AsValue(sh), p[..n]).Some? && Lookup(AsValue(sh), p[..n]).value.Scalar?;
  }

  /**
   * Where a walk over the first i parts has come to in tree sh of heap h: to the dictionary there, or
   * to a fresh empty one, the object spare.
   */
  ghost predicate WalkedTo(sh: Shape, h: Heap, p: Path, i: nat, spare: nat, config: nat, heap: Heap)
    requires i < |p|
  {
    var here := Sub(sh, p[..i]);
    if here.None? then config == spare && heap == h[spare := map[]]
    else heap == h && here.value.Node? && here.value.id == config
  }

  /** What the next part leads to. */
  lemma WalkOn(sh: Shape, h: Heap, p: Path, i: nat, spare: nat, config: nat, heap: Heap)
    requires Stands(sh, h) && i + 1 < |p| && WalkedTo(sh, h, p, i, spare, config, heap)
    ensures config in heap
    ensures p[i] !in heap[config] ==> Sub(sh, p[..i + 1]).None?
    ensures p[i] in heap[config] && heap[config][p[i]].Atom? ==> !NoLeafAt(sh, p, i + 1)
    ensures p[i] in heap[config] && heap[config][p[i]].Ref?
            ==> WalkedTo(sh, h, p, i + 1, spare, heap[config][p[i]].id, heap)
  {
    assert p[..i + 1] == p[..i] + [p[i]];
    SubNext(sh, p[..i], p[i]);
    if Sub(sh, p[..i]).Some? {
      SubStands(sh, p[..i], h);
    }
  }

  class Cli {
    var objects: Heap
    var root: nat
    /** What the configuration file holds; None before the first save. */
    ghost var saved: Option<Value>
    ghost var shape: Shape

    ghost predicate Valid()
      reads this
    {
      shape.Node? && shape.id == root && Stands(shape, objects)
    }

    ghost function Config(): Value
      reads this
    {
      AsValue(shape)
    }

    constructor (objects: Heap, root: nat, ghost shape: Shape)
      requires shape.Node? && shape.id == root && Stands(shape, objects)
      ensures Valid() && Config() == AsValue(shape) && saved == None
    {
      this.objects, this.root, this.shape, saved := objects, root, shape, None;
    }

    /**
     * The loop config = config.get(part, {}) over all parts but the last. ok: no scalar was met. spare:
     * the object a new empty dictionary gets; earlier ones are unreachable by the time of the next.
     */
    method Walk(p: Path, spare: nat) returns (ok: bool, config: nat, heap: Heap)
      requires Valid() && spare !in objects
      ensures ok == !ScalarInWay(Config(), p)
      ensures ok ==> config in heap
      ensures var end := Sub(shape, p[..|p| - 1]);
              && (ok && end.None? ==> config == spare && heap == objects[spare := map[]])
              && (ok && end.Some? ==> heap == objects && end.value.Node? && end.value.id == config)
    {
      config, heap := root, objects;
      assert p[..0] == [];
      for i := 0 to |p| - 1
        invariant WalkedTo(shape, objects, p, i, spare, config, heap) && NoLeafUpTo(shape, p, i)
      {
        WalkOn(shape, objects, p, i, spare, config, heap);
        if p[i] !in heap[config] {
          heap := objects[spare := map[]];
          config := spare;
        } else {
          match heap[config][p[i]] {
            case Atom(_) =>
              LeafInWay(shape, p, i + 1);
              ok := false;
              return;
            case Ref(id) =>
              config := id;
          }
        }
      }
      if Sub(shape, p[..|p| - 1]).Some? {
        SubStands(shape, p[..|p| - 1], objects);
      }
      NoScalarInWay(shape, p);
      ok := true;
    }

    /** What the three commands share: walk to the dictionary of the prefix, assign the last key, save. */
    method SetItem(p: Path, literal: Literal, spare: nat) returns (ok: bool)
      requires Valid() && spare !in objects
      modifies this
      ensures Valid() && ok == !ScalarInWay(old(Config()), p)
      ensures !ok ==> objects == old(objects) && Config() == old(Config()) && saved == old(saved)
      ensures ok ==> Assign(old(Config()), p, Scalar(literal)) == Done(Config()) && saved == Some(Config())
    {
      ghost var sh := shape;
      FailsIffScalarInWay(Config(), p, Scalar(literal));
      var config, heap;
      ok, config, heap := Walk(p, spare);
      if !ok {
        return;
      }
      objects := heap[config := heap[config][p[|p| - 1] := Atom(literal)]];
      if Sub(sh, p[..|p| - 1]).Some? {
        AssignInPlace(sh, p, literal, heap, config);
        PutIsAssign(sh, p, literal);
        shape := Put(sh, p, literal);
      } else {
        LookupIsSub(sh, p[..|p| - 1]);
        ReadBackIffPrefixExists(Config(), p, Scalar(literal));
        IdsInHeap(sh, old(objects));
        StandsFrame(sh, old(objects), objects);
      }
      saved := Some(Config());
    }

    method EnableFeature(feature: string, spare: nat) returns (ok: bool)
      requires Valid() && spare !in objects
      modifies this
      ensures Valid() && ok == !ScalarInWay(old(Config()), Split(feature))
      ensures !ok ==> objects == old(objects) && Config() == old(Config()) && saved == old(saved)
      ensures ok ==> Assign(old(Config()), Split(feature), Scalar(Bool(true))) == Done(Config())
                     && saved == Some(Config())
    {
      ok := SetItem(Split(feature), Bool(true), spare);
    }

    method DisableFeature(feature: string, spare: nat) returns (ok: bool)
      requires Valid() && spare !in objects
      modifies this
      ensures Valid() && ok == !ScalarInWay(old(Config()), Split(feature))
      ensures !ok ==> objects == old(objects) && Config() == old(Config()) && saved == old(saved)
      ensures ok ==> Assign(old(Config()), Split(feature), Scalar(Bool(false))) == Done(Config())
                     && saved == Some(Config())
    {
      ok := SetItem(Split(feature), Bool(false), spare);
    }

    /** other: what int or float make of a text that is neither a boolean nor plain digits. */
    method SetParameter(param: string, value: string, other: Option<Literal>, spare: nat) returns (ok: bool)
      requires Valid() && spare !in objects
      modifies this
      ensures Valid() && ok == !ScalarInWay(old(Config()), Split(param))
      ensures !ok ==> objects == old(objects) && Config() == old(Config()) && saved == old(saved)
      ensures ok ==> Assign(old(Config()), Split(param), Scalar(Convert(value, other))) == Done(Config())
                     && saved == Some(Config())
      ensures ok && SpellsTrue(value) ==> Assign(old(Config()), Split(param), Scalar(Bool(true))) == Done(Config())
      ensures ok && SpellsFalse(value) ==> Assign(old(Config()), Split(param), Scalar(Bool(false))) == Done(Config())
    {
      ConvertInValues(value, other);
      var literal;
      if Lower(value) == "true" || Lower(value) == "false" {
        literal := Bool(Lower(value) == "true");
      } else if IsDecimal(value) {
        literal := Int(Number(value));
      } else if other.Some? {
        literal := other.value;
      } else {
        literal := Str(value);
      }
      ok := SetItem(Split(param), literal, spare);
    }
  }

  /** Setting a parameter to a spelling of true or false does what enable and disable do. */
  method WordsAreSwitches(a: Cli, b: Cli, param: string, value: string, other: Option<Literal>, i: nat, j: nat)
    returns (okA: bool, okB: bool)
    requires a != b && a.Valid() && b.Valid() && a.Config() == b.Config() && a.saved == b.saved
    requires i !in a.objects && j !in b.objects && (SpellsTrue(value) || SpellsFalse(value))
    modifies a, b
    ensures a.Valid() && b.Valid() && okA == okB
    ensures a.Config() == b.Config() && a.saved == b.saved
  {
    okA := a.SetParameter(param, value, other, i);
    if value[0] in "tT" {
      okB := b.EnableFeature(param, j);
    } else {
      okB := b.DisableFeature(param, j);
    }
  }
}
