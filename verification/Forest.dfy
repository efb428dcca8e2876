/** The container tree: a pointer forest in a map, on values. */
module Forest {
  import opened VtTypes

  datatype Kind = Workspace | Group | Tab | Split

  datatype Child = SubNode(id: u64) | Leaf(session: u64)

  datatype Node = Node(kind: Kind, parent: Option<u64>, children: seq<Child>)

  type Nodes = map<u64, Node>

  // ---------------------------------------------------------------- the invariant

  predicate NoTwins(cs: seq<Child>) {
    forall i, j :: 0 <= i < j < |cs| && cs[i].SubNode? ==> cs[i] != cs[j]
  }

  /** `c` is listed among the children of `n`. */
  predicate Lists(g: Nodes, n: u64, c: u64) {
    n in g && SubNode(c) in g[n].children
  }

  /** Parent and child links agree, and no child is listed twice. */
  ghost predicate Linked(g: Nodes) {
    && (forall n: u64 :: n in g && g[n].parent.Some? ==> Lists(g, g[n].parent.value, n))
    && (forall n: u64, c: u64 :: Lists(g, n, c) ==> c in g && g[c].parent == Some(n))
    && (forall n: u64 :: n in g ==> NoTwins(g[n].children))
  }

  /** A depth for every node, larger than its parent's. */
  ghost predicate Depths(g: Nodes, d: map<u64, nat>) {
    && d.Keys == g.Keys
    && forall n :: n in g && g[n].parent.Some? && g[n].parent.value in g ==> d[g[n].parent.value] < d[n]
  }

  ghost predicate Acyclic(g: Nodes) {
    exists d :: Depths(g, d)
  }

  ghost predicate IsForest(g: Nodes) {
    Linked(g) && Acyclic(g)
  }

  /** The node `k` links above `n`. */
  function Above(g: Nodes, n: u64, k: nat): Option<u64>
    decreases k
  {
    if n !in g then None
    else if k == 0 then Some(n)
    else if g[n].parent.None? then None
    else Above(g, g[n].parent.value, k - 1)
  }

  /** `n` is in the subtree of `root`. */
  ghost predicate Under(g: Nodes, n: u64, root: u64) {
    exists k: nat :: Above(g, n, k) == Some(root)
  }

  lemma {:induction false} AboveTwice(g: Nodes, n: u64, j: nat, k: nat)
    requires Above(g, n, j).Some?
    ensures Above(g, n, j + k) == Above(g, Above(g, n, j).value, k)
    decreases j
  {
    if j > 0 {
      AboveTwice(g, g[n].parent.value, j - 1, k);
    }
  }

  lemma {:induction false} AboveIsShallower(g: Nodes, d: map<u64, nat>, n: u64, k: nat)
    requires Depths(g, d) && Above(g, n, k).Some?
    ensures n in g && Above(g, n, k).value in g && d[Above(g, n, k).value] + k <= d[n]
    decreases k
  {
    if k > 0 {
      AboveIsShallower(g, d, g[n].parent.value, k - 1);
    }
  }

  lemma UnderSelf(g: Nodes, n: u64)
    requires n in g
    ensures Under(g, n, n)
  {
    assert Above(g, n, 0) == Some(n);
  }

  /** Being under a node is being it or having one's parent under it. */
  lemma UnderParent(g: Nodes, n: u64, root: u64)
    requires n in g
    ensures Under(g, n, root) <==> n == root || (g[n].parent.Some? && Under(g, g[n].parent.value, root))
  {
    if Under(g, n, root) && n != root {
      var k: nat :| Above(g, n, k) == Some(root);
      assert Above(g, g[n].parent.value, k - 1) == Some(root);
    }
    if g[n].parent.Some? && Under(g, g[n].parent.value, root) {
      var k: nat :| Above(g, g[n].parent.value, k) == Some(root);
      assert Above(g, n, k + 1) == Some(root);
    }
    if n == root {
      UnderSelf(g, n);
    }
  }

  // ---------------------------------------------------------------- children

  /** `retain`: every slot but those of node `n`. */
  function Without(cs: seq<Child>, n: u64): (r: seq<Child>)
    ensures forall c :: c in r <==> c in cs && c != SubNode(n)
  {
    if cs == [] then []
    else Without(cs[..|cs| - 1], n) + (if cs[|cs| - 1] == SubNode(n) then [] else [cs[|cs| - 1]])
  }

  lemma {:induction false} WithoutNoTwins(cs: seq<Child>, n: u64)
    requires NoTwins(cs)
    ensures NoTwins(Without(cs, n))
  {
    if cs != [] {
      var init, last := cs[..|cs| - 1], cs[|cs| - 1];
      WithoutNoTwins(init, n);
      PushNoTwins(Without(init, n), last);
    }
  }

  lemma PushNoTwins(cs: seq<Child>, c: Child)
    requires NoTwins(cs) && (c.Leaf? || c !in cs)
    ensures NoTwins(cs + [c])
  {
  }

  /** The leaves among the children, in order. */
  function Leaves(cs: seq<Child>): seq<u64> {
    if cs == [] then []
    else Leaves(cs[..|cs| - 1]) + (if cs[|cs| - 1].Leaf? then [cs[|cs| - 1].session] else [])
  }

  lemma {:induction false} WithoutLeaves(cs: seq<Child>, n: u64)
    ensures Leaves(Without(cs, n)) == Leaves(cs)
  {
    if cs != [] {
      var init, last := cs[..|cs| - 1], cs[|cs| - 1];
      WithoutLeaves(init, n);
      if last != SubNode(n) {
        assert (Without(init, n) + [last])[..|Without(init, n)|] == Without(init, n);
      } else {
        assert Without(init, n) + [] == Without(init, n);
      }
    }
  }

  lemma PushLeaves(cs: seq<Child>, c: Child)
    ensures Leaves(cs + [c]) == Leaves(cs) + (if c.Leaf? then [c.session] else [])
  {
    assert (cs + [c])[..|cs|] == cs;
  }

  lemma {:induction false} LeavesHas(cs: seq<Child>, s: u64)
    ensures s in Leaves(cs) <==> Leaf(s) in cs
  {
    if cs != [] {
      LeavesHas(cs[..|cs| - 1], s);
      assert cs == cs[..|cs| - 1] + [cs[|cs| - 1]];
    }
  }

  // ---------------------------------------------------------------- operations

  function WithChildren(g: Nodes, n: u64, cs: seq<Child>): Nodes
    requires n in g
  {
    g[n := g[n].(children := cs)]
  }

  function Push(g: Nodes, p: Option<u64>, c: Child): Nodes {
    if p.Some? && p.value in g then WithChildren(g, p.value, g[p.value].children + [c]) else g
  }

  function Unlink(g: Nodes, p: Option<u64>, n: u64): Nodes {
    if p.Some? && p.value in g then WithChildren(g, p.value, Without(g[p.value].children, n)) else g
  }

  function Created(g: Nodes, id: u64, kind: Kind, parent: Option<u64>): Nodes {
    Push(g[id := Node(kind, parent, [])], parent, SubNode(id))
  }

  function Reparented(g: Nodes, n: u64, p: Option<u64>): Nodes
    requires n in g
  {
    var h := Push(Unlink(g, g[n].parent, n), p, SubNode(n));
    h[n := h[n].(parent := p)]
  }

  /** `g` without the nodes of `gone`, whose root hung under `parent`. */
  function Removed(g: Nodes, gone: set<u64>, root: u64, parent: Option<u64>): Nodes {
    Unlink(g, parent, root) - gone
  }

  /** What pushing a child changes. */
  lemma PushIs(g: Nodes, p: Option<u64>, c: Child, x: u64)
    requires x in g
    ensures var h := Push(g, p, c);
            h.Keys == g.Keys && h[x].kind == g[x].kind && h[x].parent == g[x].parent
            && Leaves(h[x].children) == Leaves(g[x].children) + (if c.Leaf? && p == Some(x) then [c.session] else [])
            && (NoTwins(g[x].children) && (c.SubNode? && p == Some(x) ==> !Lists(g, x, c.id)) ==> NoTwins(h[x].children))
            && forall y :: Lists(h, x, y) <==> Lists(g, x, y) || (c == SubNode(y) && p == Some(x))
  {
    if p == Some(x) {
      PushLeaves(g[x].children, c);
      if NoTwins(g[x].children) && (c.SubNode? ==> !Lists(g, x, c.id)) {
        PushNoTwins(g[x].children, c);
      }
    }
    hide Leaves, NoTwins;
  }

  /** What unlinking a child changes. */
  lemma UnlinkIs(g: Nodes, p: Option<u64>, n: u64, x: u64)
    requires x in g
    ensures var h := Unlink(g, p, n);
            h.Keys == g.Keys && h[x].kind == g[x].kind && h[x].parent == g[x].parent
            && Leaves(h[x].children) == Leaves(g[x].children)
            && (NoTwins(g[x].children) ==> NoTwins(h[x].children))
            && forall y :: Lists(h, x, y) <==> Lists(g, x, y) && !(y == n && p == Some(x))
  {
    if p == Some(x) {
      WithoutLeaves(g[x].children, n);
      if NoTwins(g[x].children) {
        WithoutNoTwins(g[x].children, n);
      }
    }
    hide Leaves, NoTwins, Without;
  }

  /** Enough for the links of `h` to agree. */
  lemma LinksAgree(h: Nodes)
    requires forall n: u64 :: n in h ==> NoTwins(h[n].children)
    requires forall n: u64 :: n in h && h[n].parent.Some? ==> Lists(h, h[n].parent.value, n)
    requires forall n: u64, c: u64 :: n in h && Lists(h, n, c) ==> c in h && h[c].parent == Some(n)
    ensures Linked(h)
  {
  }

  // ---------------------------------------------------------------- create and attach

  /** The new node comes with its kind and no children, last under its parent;
      nothing else changes. */
  lemma CreatedAlone(g: Nodes, id: u64, kind: Kind, parent: Option<u64>, x: u64)
    requires id !in g && x in g && (parent.Some? ==> parent.value in g)
    ensures var h := Created(g, id, kind, parent);
            && h.Keys == g.Keys + {id} && h[id] == Node(kind, parent, [])
            && h[x] == if parent == Some(x) then g[x].(children := g[x].children + [SubNode(id)]) else g[x]
  {
  }

  lemma CreatedIs(g: Nodes, id: u64, kind: Kind, parent: Option<u64>, x: u64)
    requires Linked(g) && id !in g && (x in g || x == id)
    ensures var h := Created(g, id, kind, parent);
            h.Keys == g.Keys + {id} && h[x].parent == (if x == id then parent else g[x].parent)
            && NoTwins(h[x].children)
            && forall y :: Lists(h, x, y) <==> Lists(g, x, y) || (y == id && parent == Some(x))
  {
    NewNodeIs(g, id, kind, parent);
    PushIs(g[id := Node(kind, parent, [])], parent, SubNode(id), x);
    hide Push, Lists, NoTwins, Leaves;
  }

  lemma CreatedLinked(g: Nodes, id: u64, kind: Kind, parent: Option<u64>)
    requires Linked(g) && id !in g && (parent.Some? ==> parent.value in g)
    ensures Linked(Created(g, id, kind, parent))
  {
    var h := Created(g, id, kind, parent);
    forall x | x in g || x == id
      ensures h.Keys == g.Keys + {id} && h[x].parent == (if x == id then parent else g[x].parent)
      ensures NoTwins(h[x].children)
      ensures forall y :: Lists(h, x, y) <==> Lists(g, x, y) || (y == id && parent == Some(x))
    {
      CreatedIs(g, id, kind, parent, x);
    }
    hide Created, NoTwins, Lists;
    forall x: u64 | x in h && h[x].parent.Some? ensures Lists(h, h[x].parent.value, x) {
      if x != id {
        assert Lists(g, g[x].parent.value, x);
        ListsKnown(g, g[x].parent.value, x);
      }
    }
    LinksAgree(h);
  }

  /** A new node under a known parent, or under none. */
  lemma CreateKeeps(g: Nodes, id: u64, kind: Kind, parent: Option<u64>)
    requires IsForest(g) && id !in g && (parent.Some? ==> parent.value in g)
    ensures IsForest(Created(g, id, kind, parent))
  {
    CreatedLinked(g, id, kind, parent);
    var h := Created(g, id, kind, parent);
    var d :| Depths(g, d);
    forall x | x in g || x == id
      ensures h.Keys == g.Keys + {id} && h[x].parent == (if x == id then parent else g[x].parent)
    {
      CreatedIs(g, id, kind, parent, x);
    }
    DeeperByOne(g, d, id, parent);
    hide Created, Linked;
    assert Depths(h, d[id := if parent.Some? then d[parent.value] + 1 else 0]);
  }

  lemma ListsKnown(g: Nodes, n: u64, c: u64)
    requires Lists(g, n, c)
    ensures n in g
  {
  }

  lemma NewNodeIs(g: Nodes, id: u64, kind: Kind, parent: Option<u64>)
    requires Linked(g) && id !in g
    ensures var g1 := g[id := Node(kind, parent, [])];
            forall x :: x in g1 ==>
              NoTwins(g1[x].children) && !Lists(g1, x, id) && forall y :: Lists(g1, x, y) <==> Lists(g, x, y)
  {
    var g1 := g[id := Node(kind, parent, [])];
    forall x | x in g1
      ensures NoTwins(g1[x].children) && !Lists(g1, x, id) && forall y :: Lists(g1, x, y) <==> Lists(g, x, y)
    {
      assert !Lists(g, x, id);
      if x == id {
        assert g1[x].children == [];
      } else {
        assert g1[x] == g[x];
      }
    }
  }

  lemma DeeperByOne(g: Nodes, d: map<u64, nat>, id: u64, parent: Option<u64>)
    requires Depths(g, d) && id !in g && (parent.Some? ==> parent.value in g)
    ensures var e := d[id := if parent.Some? then d[parent.value] + 1 else 0];
            e.Keys == g.Keys + {id} && (parent.Some? ==> e[parent.value] < e[id])
            && forall x :: x in g ==> e[x] == d[x]
  {
  }

  lemma AttachedLinked(g: Nodes, n: u64, s: u64)
    requires Linked(g) && n in g
    ensures Linked(Push(g, Some(n), Leaf(s)))
  {
    var h := Push(g, Some(n), Leaf(s));
    forall x | x in g
      ensures h.Keys == g.Keys && h[x].parent == g[x].parent && NoTwins(h[x].children)
      ensures forall y :: Lists(h, x, y) <==> Lists(g, x, y)
    {
      PushIs(g, Some(n), Leaf(s), x);
    }
    assert forall x :: x !in g ==> forall y :: !Lists(h, x, y);
    hide Lists, Push, NoTwins;
    assert Linked(h);
  }

  /** A leaf comes last under its node; nothing else changes. */
  lemma AttachedAlone(g: Nodes, n: u64, s: u64, x: u64)
    requires n in g && x in g
    ensures var h := Push(g, Some(n), Leaf(s));
            h.Keys == g.Keys && h[x] == if x == n then g[x].(children := g[x].children + [Leaf(s)]) else g[x]
  {
  }

  lemma AttachKeeps(g: Nodes, n: u64, s: u64)
    requires IsForest(g) && n in g
    ensures IsForest(Push(g, Some(n), Leaf(s)))
  {
    var h := Push(g, Some(n), Leaf(s));
    var d :| Depths(g, d);
    AttachedLinked(g, n, s);
    forall x | x in g ensures h.Keys == g.Keys && h[x].parent == g[x].parent {
      PushIs(g, Some(n), Leaf(s), x);
    }
    hide Linked, Push;
    assert Depths(h, d);
  }

  // ---------------------------------------------------------------- reparent

  lemma SetParent(g: Nodes, n: u64, p: Option<u64>, x: u64)
    requires n in g && x in g
    ensures var h := g[n := g[n].(parent := p)];
            h.Keys == g.Keys && h[x].kind == g[x].kind && h[x].children == g[x].children
            && h[x].parent == (if x == n then p else g[x].parent)
            && forall y :: Lists(h, x, y) <==> Lists(g, x, y)
  {
  }

  lemma WithoutPush(cs: seq<Child>, c: Child, n: u64)
    ensures Without(cs + [c], n) == Without(cs, n) + (if c == SubNode(n) then [] else [c])
  {
    assert (cs + [c])[..|cs|] == cs;
  }

  lemma {:induction false} WithoutTwice(cs: seq<Child>, n: u64)
    ensures Without(Without(cs, n), n) == Without(cs, n)
  {
    if cs != [] {
      var init, last := cs[..|cs| - 1], cs[|cs| - 1];
      WithoutTwice(init, n);
      if last != SubNode(n) {
        WithoutPush(Without(init, n), last, n);
      } else {
        assert Without(init, n) + [] == Without(init, n);
      }
    }
  }

  /** The other children of everybody stay where they are, and the node comes
      last under its new parent. */
  lemma ReparentKeepsOrder(g: Nodes, n: u64, p: Option<u64>, x: u64)
    requires n in g && x in g
    ensures var h := Reparented(g, n, p);
            && x in h && Without(h[x].children, n) == Without(g[x].children, n)
            && (p == Some(x) ==> h[x].children != [] && h[x].children[|h[x].children| - 1] == SubNode(n))
  {
    WithoutTwice(g[x].children, n);
    WithoutPush(g[x].children, SubNode(n), n);
    WithoutPush(Without(g[x].children, n), SubNode(n), n);
    ChildrenMove(g, n, p, x);
    hide Without, Reparented;
    assert Without(g[x].children, n) + [] == Without(g[x].children, n);
  }

  /** The children of `x` once `n` moved: without it, and with it at the end. */
  lemma ChildrenMove(g: Nodes, n: u64, p: Option<u64>, x: u64)
    requires n in g && x in g
    ensures var h, u := Reparented(g, n, p), if g[n].parent == Some(x) then Without(g[x].children, n) else g[x].children;
            x in h && h[x].children == u + if p == Some(x) then [SubNode(n)] else []
  {
    hide Without;
    var u := Unlink(g, g[n].parent, n);
    assert x in u && n in u && u[x].children == if g[n].parent == Some(x) then Without(g[x].children, n) else g[x].children;
    hide Unlink;
    var v := Push(u, p, SubNode(n));
    assert u[x].children + [] == u[x].children;
    assert x in v && n in v && v[x].children == u[x].children + if p == Some(x) then [SubNode(n)] else [];
  }

  /** Moving a node keeps every id, every kind and every leaf where it was. */
  lemma ReparentMovesNothingElse(g: Nodes, n: u64, p: Option<u64>, x: u64)
    requires n in g && x in g
    ensures var h := Reparented(g, n, p);
            h.Keys == g.Keys && h[x].kind == g[x].kind && Leaves(h[x].children) == Leaves(g[x].children)
            && h[x].parent == if x == n then p else g[x].parent
  {
    var u := Unlink(g, g[n].parent, n);
    var v := Push(u, p, SubNode(n));
    UnlinkIs(g, g[n].parent, n, x);
    PushIs(u, p, SubNode(n), x);
    SetParent(v, n, p, x);
    hide Leaves, Unlink, Push, Lists, NoTwins;
  }

  /** The children of `x` once `n` moved under `p`. */
  lemma ReparentedChildren(g: Nodes, n: u64, p: Option<u64>, x: u64)
    requires Linked(g) && n in g && x in g
    ensures var h := Reparented(g, n, p);
            NoTwins(h[x].children) && forall y :: Lists(h, x, y) <==> if y == n then p == Some(x) else Lists(g, x, y)
  {
    var u := Unlink(g, g[n].parent, n);
    var v := Push(u, p, SubNode(n));
    UnlinkIs(g, g[n].parent, n, x);
    PushIs(u, p, SubNode(n), x);
    SetParent(v, n, p, x);
    hide Leaves, Unlink, Push, Lists, NoTwins;
  }

  lemma ReparentedLinked(g: Nodes, n: u64, p: Option<u64>)
    requires Linked(g) && n in g && (p.Some? ==> p.value in g)
    ensures Linked(Reparented(g, n, p))
  {
    var h := Reparented(g, n, p);
    forall x | x in g
      ensures h.Keys == g.Keys && h[x].parent == if x == n then p else g[x].parent
      ensures NoTwins(h[x].children)
      ensures forall y :: Lists(h, x, y) <==> if y == n then p == Some(x) else Lists(g, x, y)
    {
      ReparentMovesNothingElse(g, n, p, x);
      ReparentedChildren(g, n, p, x);
    }
    ReparentMovesNothingElse(g, n, p, n);
    hide Reparented, NoTwins;
    forall x: u64 | x in h && h[x].parent.Some? ensures Lists(h, h[x].parent.value, x) {
      if x == n {
        assert p.value in g;
      } else {
        assert Lists(g, g[x].parent.value, x);
      }
    }
    hide Lists;
    LinksAgree(h);
  }

  /** Nodes outside the moved subtree keep everything above them. */
  lemma {:induction false} AboveUnmoved(g: Nodes, n: u64, p: Option<u64>, x: u64, k: nat)
    requires n in g && !Under(g, x, n)
    ensures Above(Reparented(g, n, p), x, k) == Above(g, x, k)
    decreases k
  {
    if x in g {
      UnderParent(g, x, n);
      ReparentMovesNothingElse(g, n, p, x);
      if k > 0 && g[x].parent.Some? {
        AboveUnmoved(g, n, p, g[x].parent.value, k - 1);
      }
    }
    hide Reparented, Under;
  }

  /** Nodes inside it keep everything up to its root. */
  lemma {:induction false} AboveMoved(g: Nodes, n: u64, p: Option<u64>, x: u64, k: nat)
    requires n in g && Above(g, x, k) == Some(n)
    requires forall j :: 0 <= j < k ==> Above(g, x, j) != Some(n)
    ensures Above(Reparented(g, n, p), x, k) == Some(n)
    decreases k
  {
    ReparentMovesNothingElse(g, n, p, x);
    if k > 0 {
      assert Above(g, x, 0) == Some(x);
      var q := g[x].parent.value;
      forall j | 0 <= j < k - 1 ensures Above(g, q, j) != Some(n) {
        assert Above(g, x, j + 1) == Above(g, q, j);
      }
      AboveMoved(g, n, p, q, k - 1);
    }
    hide Reparented;
  }

  lemma {:induction false} FirstAbove(g: Nodes, x: u64, n: u64, k: nat) returns (j: nat)
    requires Above(g, x, k) == Some(n)
    ensures j <= k && Above(g, x, j) == Some(n) && forall i :: 0 <= i < j ==> Above(g, x, i) != Some(n)
  {
    j := 0;
    while Above(g, x, j) != Some(n)
      invariant j <= k && forall i :: 0 <= i < j ==> Above(g, x, i) != Some(n)
      decreases k - j
    {
      j := j + 1;
    }
  }

  /** A move out of the subtree leaves a forest. */
  lemma MoveOutKeeps(g: Nodes, n: u64, p: Option<u64>)
    requires IsForest(g) && n in g && (p.Some? ==> p.value in g && !Under(g, p.value, n))
    ensures IsForest(Reparented(g, n, p))
  {
    ReparentedLinked(g, n, p);
    var d :| Depths(g, d);
    var e := Lifted(g, d, n, if p.Some? then d[p.value] + 1 else 0);
    var h := Reparented(g, n, p);
    forall x | x in g && h[x].parent.Some? && h[x].parent.value in g
      ensures h.Keys == g.Keys && e[h[x].parent.value] < e[x]
    {
      LiftedDeeper(g, d, n, p, x);
    }
    ReparentMovesNothingElse(g, n, p, n);
    hide Linked, Reparented, Lifted;
    assert Depths(h, e);
  }

  /** The depths of a subtree, all raised alike. */
  ghost function Lifted(g: Nodes, d: map<u64, nat>, n: u64, lift: nat): (e: map<u64, nat>)
    requires d.Keys == g.Keys
    ensures e.Keys == g.Keys
  {
    map x | x in g :: if Under(g, x, n) then d[x] + lift else d[x]
  }

  lemma LiftedDeeper(g: Nodes, d: map<u64, nat>, n: u64, p: Option<u64>, x: u64)
    requires Depths(g, d) && n in g && x in g && (p.Some? ==> p.value in g && !Under(g, p.value, n))
    ensures var h, e := Reparented(g, n, p), Lifted(g, d, n, if p.Some? then d[p.value] + 1 else 0);
            h.Keys == g.Keys && (h[x].parent.Some? && h[x].parent.value in g ==> e[h[x].parent.value] < e[x])
  {
    ReparentMovesNothingElse(g, n, p, x);
    UnderParent(g, x, n);
    UnderSelf(g, n);
    hide Under, Reparented;
  }

  /** `n` is among its own ancestors: following the parents of `n` leads back
      to it. */
  ghost predicate AboveItself(g: Nodes, n: u64) {
    n in g && g[n].parent.Some? && Under(g, g[n].parent.value, n)
  }

  lemma NotAboveItself(g: Nodes, n: u64)
    requires Acyclic(g)
    ensures !AboveItself(g, n)
  {
    if AboveItself(g, n) {
      var d :| Depths(g, d);
      var k: nat :| Above(g, g[n].parent.value, k) == Some(n);
      AboveIsShallower(g, d, n, k + 1);
    }
  }

  /** Up to the node that moves nothing above any node changes. */
  lemma UnderMoved(g: Nodes, n: u64, p: Option<u64>, x: u64)
    requires n in g
    ensures Under(Reparented(g, n, p), x, n) <==> Under(g, x, n)
  {
    var h := Reparented(g, n, p);
    if Under(g, x, n) {
      var k: nat :| Above(g, x, k) == Some(n);
      var j := FirstAbove(g, x, n, k);
      AboveMoved(g, n, p, x, j);
    } else {
      StaysOutside(g, n, p, x);
    }
  }

  lemma StaysOutside(g: Nodes, n: u64, p: Option<u64>, x: u64)
    requires n in g && !Under(g, x, n)
    ensures !Under(Reparented(g, n, p), x, n)
  {
    forall k: nat ensures Above(Reparented(g, n, p), x, k) != Some(n) {
      AboveUnmoved(g, n, p, x, k);
    }
    hide Reparented;
  }

  /** After any move the code accepts, the moved node is its own ancestor
      exactly when it was moved into its own subtree; whatever cycles there
      were before. */
  lemma MoveClosesIff(g: Nodes, n: u64, p: Option<u64>)
    requires n in g
    ensures AboveItself(Reparented(g, n, p), n) <==> p.Some? && Under(g, p.value, n)
  {
    ReparentMovesNothingElse(g, n, p, n);
    if p.Some? {
      UnderMoved(g, n, p, p.value);
    }
    hide Reparented, Under;
  }

  /** A move into the subtree closes a cycle. */
  lemma MoveInBreaks(g: Nodes, n: u64, p: u64)
    requires n in g && p in g && Under(g, p, n)
    ensures !Acyclic(Reparented(g, n, Some(p)))
  {
    MoveClosesIff(g, n, Some(p));
    if Acyclic(Reparented(g, n, Some(p))) {
      NotAboveItself(Reparented(g, n, Some(p)), n);
    }
  }

  /** Reparenting keeps the forest exactly when the new parent is not in the
      subtree that moves. The code only refuses the node itself. */
  lemma ReparentKeepsIff(g: Nodes, n: u64, p: Option<u64>)
    requires IsForest(g) && n in g && (p.Some? ==> p.value in g)
    ensures IsForest(Reparented(g, n, p)) <==> !(p.Some? && Under(g, p.value, n))
  {
    if p.Some? && Under(g, p.value, n) {
      MoveInBreaks(g, n, p.value);
    } else {
      MoveOutKeeps(g, n, p);
    }
  }

  // ---------------------------------------------------------------- close

  /** Exactly the subtree of `root`. */
  ghost predicate IsSubtree(g: Nodes, gone: set<u64>, root: u64) {
    forall x: u64 :: x in gone <==> x in g && Under(g, x, root)
  }

  /** Removing a whole subtree leaves a forest and touches no other node but
      its parent's list of children. */
  lemma CloseKeeps(g: Nodes, gone: set<u64>, root: u64)
    requires IsForest(g) && root in g && IsSubtree(g, gone, root)
    ensures IsForest(Removed(g, gone, root, g[root].parent))
    ensures Removed(g, gone, root, g[root].parent).Keys == g.Keys - gone
  {
    hide Linked, IsSubtree, Removed, Depths;
    RemovedLinked(g, gone, root);
    RemovedAcyclic(g, gone, root, g[root].parent);
  }

  /** Every node that stays keeps its kind, its parent, its leaves and, but for
      the root that goes, its children. */
  lemma CloseMovesNothingElse(g: Nodes, gone: set<u64>, root: u64, x: u64)
    requires root in g && x in g && x !in gone
    ensures var h := Removed(g, gone, root, g[root].parent);
            && x in h && h[x].kind == g[x].kind && h[x].parent == g[x].parent
            && Leaves(h[x].children) == Leaves(g[x].children)
            && forall y :: Lists(h, x, y) <==> Lists(g, x, y) && !(y == root && g[root].parent == Some(x))
  {
    UnlinkIs(g, g[root].parent, root, x);
    RemovedIs(Unlink(g, g[root].parent, root), gone);
    hide Unlink, Leaves, Lists, NoTwins;
  }

  lemma RemovedAcyclic(g: Nodes, gone: set<u64>, root: u64, parent: Option<u64>)
    requires Acyclic(g)
    ensures Acyclic(Removed(g, gone, root, parent)) && Removed(g, gone, root, parent).Keys == g.Keys - gone
  {
    var d :| Depths(g, d);
    var u := Unlink(g, parent, root);
    assert u.Keys == g.Keys by {
      hide Unlink;
      forall x | x in g ensures u.Keys == g.Keys {
        UnlinkIs(g, parent, root, x);
      }
      if g.Keys == {} {
        UnlinkNothing(g, parent, root);
      }
    }
    forall x | x in g ensures u[x].parent == g[x].parent {
      UnlinkIs(g, parent, root, x);
    }
    hide Unlink;
    var h := Removed(g, gone, root, parent);
    var e := map x | x in h :: d[x];
    assert Depths(h, e);
  }

  lemma UnlinkNothing(g: Nodes, p: Option<u64>, n: u64)
    requires g.Keys == {}
    ensures Unlink(g, p, n).Keys == {}
  {
  }

  lemma RemovedLinked(g: Nodes, gone: set<u64>, root: u64)
    requires Linked(g) && root in g && IsSubtree(g, gone, root)
    ensures Linked(Removed(g, gone, root, g[root].parent))
  {
    var u := Unlink(g, g[root].parent, root);
    var h := u - gone;
    forall x | x in g
      ensures u.Keys == g.Keys && u[x].parent == g[x].parent && NoTwins(u[x].children)
      ensures x in gone <==> x == root || (g[x].parent.Some? && g[x].parent.value in gone)
      ensures forall y :: Lists(u, x, y) <==> Lists(g, x, y) && !(y == root && g[root].parent == Some(x))
    {
      UnlinkIs(g, g[root].parent, root, x);
      UnderParent(g, x, root);
    }
    RemovedIs(u, gone);
    hide Under, Unlink, NoTwins;
    forall x: u64 | x in h && h[x].parent.Some? ensures Lists(h, h[x].parent.value, x) {
      assert Lists(g, g[x].parent.value, x);
    }
    hide Lists;
    LinksAgree(h);
  }

  lemma RemovedIs(u: Nodes, gone: set<u64>)
    ensures forall x: u64, y: u64 :: Lists(u - gone, x, y) <==> x !in gone && Lists(u, x, y)
  {
  }

  /** The containers among the children, in order. */
  function Kids(cs: seq<Child>): seq<u64> {
    if cs == [] then []
    else Kids(cs[..|cs| - 1]) + (if cs[|cs| - 1].SubNode? then [cs[|cs| - 1].id] else [])
  }

  predicate NoDuplicates(ids: seq<u64>) {
    forall i, j :: 0 <= i < j < |ids| ==> ids[i] != ids[j]
  }

  lemma {:induction false} KidsHas(cs: seq<Child>, c: u64)
    ensures c in Kids(cs) <==> SubNode(c) in cs
  {
    if cs != [] {
      KidsHas(cs[..|cs| - 1], c);
      assert cs == cs[..|cs| - 1] + [cs[|cs| - 1]];
    }
  }

  lemma {:induction false} KidsDiffer(cs: seq<Child>)
    requires NoTwins(cs)
    ensures NoDuplicates(Kids(cs))
  {
    if cs != [] {
      var init, last := cs[..|cs| - 1], cs[|cs| - 1];
      KidsDiffer(init);
      if last.SubNode? {
        KidsHas(init, last.id);
        assert last !in init;
      }
    }
  }

  /** The leaves attached anywhere in a list of nodes, in order. */
  function LeavesIn(g: Nodes, ids: seq<u64>): seq<u64> {
    if ids == [] then []
    else
      LeavesIn(g, ids[..|ids| - 1])
      + (if ids[|ids| - 1] in g then Leaves(g[ids[|ids| - 1]].children) else [])
  }

  function SetOf(ids: seq<u64>): (s: set<u64>)
    ensures forall n: u64 :: n in s <==> n in ids
  {
    set n | n in ids
  }

  /** A leaf attached to some node of a set. */
  ghost predicate Holds(g: Nodes, ids: set<u64>, s: u64) {
    exists n: u64 :: n in ids && n in g && Leaf(s) in g[n].children
  }

  lemma {:induction false} LeavesInHolds(g: Nodes, ids: seq<u64>, s: u64)
    ensures s in LeavesIn(g, ids) <==> Holds(g, SetOf(ids), s)
  {
    if ids != [] {
      var init, last := ids[..|ids| - 1], ids[|ids| - 1];
      LeavesInHolds(g, init, s);
      assert ids == init + [last];
      if last in g {
        LeavesHas(g[last].children, s);
      }
      if Holds(g, SetOf(ids), s) && !Holds(g, SetOf(init), s) {
        assert last in g && Leaf(s) in g[last].children;
      }
    }
  }

  // ---------------------------------------------------------------- walking a subtree

  /** A walk from `root` that has seen `out` and not yet opened `frontier`. */
  ghost predicate Walking(g: Nodes, root: u64, out: seq<u64>, frontier: seq<u64>) {
    && NoDuplicates(out) && NoDuplicates(frontier)
    && root in out
    && (forall x: u64 :: x in frontier ==> x in out)
    && (forall x: u64 :: x in out ==> x in g && Under(g, x, root))
    && (forall x: u64, c: u64 :: x in out && x !in frontier && Lists(g, x, c) ==> c in out)
    && (forall x: u64 :: x in out && x != root ==> Came(g, x, out, frontier))
  }

  /** The walk reached `x` by opening its parent. */
  ghost predicate Came(g: Nodes, x: u64, out: seq<u64>, frontier: seq<u64>) {
    x in g && g[x].parent.Some? && g[x].parent.value in out && g[x].parent.value !in frontier
  }

  lemma WalkStarts(g: Nodes, root: u64)
    requires root in g
    ensures Walking(g, root, [root], [root])
  {
    UnderSelf(g, root);
  }

  /** The children of the node being opened have not been seen. */
  lemma KidIsNew(g: Nodes, root: u64, out: seq<u64>, frontier: seq<u64>, id: u64, c: u64)
    requires Linked(g) && !AboveItself(g, root) && Walking(g, root, out, frontier) && id in frontier && Lists(g, id, c)
    ensures c !in out && c in g && Under(g, c, root)
  {
    assert g[c].parent == Some(id) && Under(g, id, root);
    UnderParent(g, c, root);
    hide Under, Lists;
    if c in out && c != root {
      SeenIsOpened(g, root, out, frontier, c);
    }
  }

  lemma SeenIsOpened(g: Nodes, root: u64, out: seq<u64>, frontier: seq<u64>, c: u64)
    requires Walking(g, root, out, frontier) && c in out && c != root
    ensures c in g && g[c].parent.Some? && g[c].parent.value !in frontier
  {
    assert Came(g, c, out, frontier);
  }

  /** Opening the last node of the frontier. */
  lemma WalkGoesOn(g: Nodes, root: u64, out: seq<u64>, frontier: seq<u64>)
    requires Linked(g) && !AboveItself(g, root) && Walking(g, root, out, frontier) && frontier != []
    ensures var rest, id := frontier[..|frontier| - 1], frontier[|frontier| - 1];
            id in g && id in out
            && Walking(g, root, out + Kids(g[id].children), rest + Kids(g[id].children))
            && id !in rest + Kids(g[id].children)
            && forall x: u64 :: x in out && x !in frontier ==> x !in rest + Kids(g[id].children)
  {
    var rest, id := frontier[..|frontier| - 1], frontier[|frontier| - 1];
    assert frontier == rest + [id] && id in frontier && id in out;
    var kids := Kids(g[id].children);
    KidsDiffer(g[id].children);
    forall c: u64
      ensures c in kids <==> Lists(g, id, c)
      ensures c in kids ==> c !in out && c in g && Under(g, c, root) && g[c].parent == Some(id)
    {
      KidsHas(g[id].children, c);
      if c in kids {
        KidIsNew(g, root, out, frontier, id, c);
      }
    }
    hide Under, Kids, Lists, Linked, AboveItself;
    WalkStep(g, root, out, rest, id, kids);
  }

  lemma WalkStep(g: Nodes, root: u64, out: seq<u64>, rest: seq<u64>, id: u64, kids: seq<u64>)
    requires Walking(g, root, out, rest + [id]) && NoDuplicates(kids) && id in g && id in out
    requires forall c: u64 :: c in kids <==> Lists(g, id, c)
    requires forall c: u64 :: c in kids ==> c !in out && c in g && Under(g, c, root) && g[c].parent == Some(id)
    ensures Walking(g, root, out + kids, rest + kids) && id !in rest + kids
    ensures forall x: u64 :: x in out && x !in rest + [id] ==> x !in rest + kids
  {
    hide Under, Lists;
    var frontier, o, f := rest + [id], out + kids, rest + kids;
    LastDiffers(rest, id);
    assert forall x: u64 :: x in frontier <==> x in rest || x == id;
    JoinDiffers(out, kids);
    JoinDiffers(rest, kids);
    forall x: u64 | x in o && x != root ensures Came(g, x, o, f) {
      if x in out {
        assert Came(g, x, out, frontier);
      }
    }
    hide NoDuplicates, Came;
    forall x: u64, c: u64 | x in o && x !in f && Lists(g, x, c) ensures c in o {
      if x != id {
        assert x in out && x !in frontier;
      }
    }
    assert forall x: u64 :: x in f ==> x in o;
  }

  lemma LastDiffers(rest: seq<u64>, id: u64)
    requires NoDuplicates(rest + [id])
    ensures NoDuplicates(rest) && id !in rest
  {
    var all := rest + [id];
    forall i | 0 <= i < |rest| ensures rest[i] == all[i] && all[i] != all[|rest|] {
    }
  }

  lemma JoinDiffers(a: seq<u64>, b: seq<u64>)
    requires NoDuplicates(a) && NoDuplicates(b) && forall x :: x in b ==> x !in a
    ensures NoDuplicates(a + b)
  {
    forall i, j | 0 <= i < j < |a + b| ensures (a + b)[i] != (a + b)[j] {
      if i < |a| <= j {
        assert b[j - |a|] in b;
      }
    }
  }

  /** A walk with nothing left to open has seen the whole subtree. */
  lemma WalkEnds(g: Nodes, root: u64, out: seq<u64>)
    requires Linked(g) && Walking(g, root, out, [])
    ensures IsSubtree(g, SetOf(out), root)
  {
    forall x: u64 ensures x in SetOf(out) <==> x in g && Under(g, x, root) {
      if x in g && Under(g, x, root) {
        var k: nat :| Above(g, x, k) == Some(root);
        SeenBelow(g, root, out, x, k);
      }
    }
  }

  lemma {:induction false} SeenBelow(g: Nodes, root: u64, out: seq<u64>, x: u64, k: nat)
    requires Linked(g) && Walking(g, root, out, []) && Above(g, x, k) == Some(root)
    ensures x in out
    decreases k
  {
    if k > 0 {
      SeenBelow(g, root, out, g[x].parent.value, k - 1);
      assert Lists(g, g[x].parent.value, x);
    }
  }

  /** The worklist after `k` turns of a walk from `root`. */
  function Frontier(g: Nodes, root: u64, k: nat): seq<u64>
    decreases k
  {
    if k == 0 then [root]
    else
      var f := Frontier(g, root, k - 1);
      if f == [] then []
      else f[..|f| - 1] + (if f[|f| - 1] in g then Kids(g[f[|f| - 1]].children) else [])
  }

  /** A step of the worklist. */
  lemma FrontierNext(g: Nodes, root: u64, k: nat)
    requires Frontier(g, root, k) != []
    ensures var f := Frontier(g, root, k);
            var id := f[|f| - 1];
            Frontier(g, root, k + 1) == f[..|f| - 1] + (if id in g then Kids(g[id].children) else [])
  {
  }

  /** Among the children of an ancestor of a root that is its own ancestor
      there is another. */
  lemma AncestorHasKid(g: Nodes, root: u64, x: u64) returns (c: u64)
    requires Linked(g) && AboveItself(g, root) && Under(g, root, x)
    ensures x in g && Lists(g, x, c) && Under(g, root, c)
  {
    var j: nat :| Above(g, root, j) == Some(x);
    if j == 0 {
      var m: nat :| Above(g, g[root].parent.value, m) == Some(root);
      j := m + 1;
    }
    c := KidBelow(g, root, x, j);
  }

  lemma KidBelow(g: Nodes, root: u64, x: u64, j: nat) returns (c: u64)
    requires Linked(g) && j > 0 && Above(g, root, j) == Some(x)
    ensures x in g && Lists(g, x, c) && Under(g, root, c)
  {
    AboveBefore(g, root, j - 1);
    c := Above(g, root, j - 1).value;
    AboveTwice(g, root, j - 1, 1);
    assert Above(g, c, 1) == Some(x);
    assert g[c].parent == Some(x) && Above(g, x, 0) == Some(x);
  }

  lemma {:induction false} AboveBefore(g: Nodes, n: u64, k: nat)
    requires Above(g, n, k + 1).Some?
    ensures Above(g, n, k).Some? && Above(g, n, k).value in g
    decreases k
  {
    if k > 0 {
      AboveBefore(g, g[n].parent.value, k - 1);
    }
  }

  /** As long as the root is its own ancestor, one of its ancestors waits in
      the worklist. */
  lemma {:induction false} AncestorWaits(g: Nodes, root: u64, k: nat) returns (x: u64)
    requires Linked(g) && AboveItself(g, root)
    ensures x in Frontier(g, root, k) && Under(g, root, x)
    decreases k
  {
    hide Linked, Under, Lists, Kids;
    if k == 0 {
      UnderSelf(g, root);
      return root;
    }
    var y := AncestorWaits(g, root, k - 1);
    FrontierNext(g, root, k - 1);
    hide Frontier;
    var f := Frontier(g, root, k - 1);
    var id := f[|f| - 1];
    assert f == f[..|f| - 1] + [id];
    if y in f[..|f| - 1] {
      return y;
    }
    x := AncestorHasKid(g, root, id);
    WaitingKid(g, id, x);
  }

  lemma WaitingKid(g: Nodes, id: u64, c: u64)
    requires Lists(g, id, c)
    ensures id in g && c in Kids(g[id].children)
  {
    KidsHas(g[id].children, c);
  }

  /** From any point of a walk whose root is not its own ancestor, the worklist
      empties: every turn opens a node not opened before. */
  lemma {:induction false} WalkStops(g: Nodes, root: u64, k: nat, out: seq<u64>, done: set<u64>) returns (n: nat)
    requires Linked(g) && !AboveItself(g, root) && Walking(g, root, out, Frontier(g, root, k))
    requires done <= g.Keys && forall x: u64 :: x in done ==> x in out && x !in Frontier(g, root, k)
    ensures Frontier(g, root, n) == [] && n <= k + |g.Keys - done|
    decreases |g.Keys - done|
  {
    hide Walking, Linked, AboveItself, Kids;
    var f := Frontier(g, root, k);
    if f == [] {
      return k;
    }
    WalkGoesOn(g, root, out, f);
    FrontierNext(g, root, k);
    hide Frontier;
    var id := f[|f| - 1];
    OpenedGrows(g.Keys, done, id);
    n := WalkStops(g, root, k + 1, out + Kids(g[id].children), done + {id});
  }

  lemma OpenedGrows(all: set<u64>, done: set<u64>, id: u64)
    requires id in all && id !in done
    ensures |all - (done + {id})| < |all - done|
  {
    assert all - done == (all - (done + {id})) + {id};
  }

  lemma {:induction false} StaysEmpty(g: Nodes, root: u64, k: nat, n: nat)
    requires Frontier(g, root, k) == [] && k <= n
    ensures Frontier(g, root, n) == []
    decreases n
  {
    if k < n {
      StaysEmpty(g, root, k, n - 1);
    }
  }

  /** The walk of `collect_subtree` ends exactly when its root is not its own
      ancestor, whatever cycles there are elsewhere; and when it ends it takes
      at most a turn for every node there is. */
  lemma WalkEndsIff(g: Nodes, root: u64)
    requires Linked(g) && root in g
    ensures (exists k: nat :: Frontier(g, root, k) == []) <==> !AboveItself(g, root)
    ensures Frontier(g, root, |g|) == [] <==> !AboveItself(g, root)
  {
    if AboveItself(g, root) {
      forall k: nat ensures Frontier(g, root, k) != [] {
        var x := AncestorWaits(g, root, k);
      }
    } else {
      WalkStarts(g, root);
      assert Frontier(g, root, 0) == [root];
      var n := WalkStops(g, root, 0, [root], {});
      assert g.Keys - {} == g.Keys;
      StaysEmpty(g, root, n, |g|);
    }
  }

  /** After any move the code accepts, closing the moved node ends exactly when
      it was not moved into its own subtree. */
  lemma MovedWalkEndsIff(g: Nodes, n: u64, p: Option<u64>)
    requires Linked(g) && n in g && (p.Some? ==> p.value in g && p.value != n)
    ensures var h := Reparented(g, n, p);
            (exists k: nat :: Frontier(h, n, k) == []) <==> !(p.Some? && Under(g, p.value, n))
  {
    var h := Reparented(g, n, p);
    ReparentedLinked(g, n, p);
    ReparentMovesNothingElse(g, n, p, n);
    MoveClosesIff(g, n, p);
    WalkEndsIff(h, n);
    hide Reparented, Linked, Under, Frontier, AboveItself;
  }

  /** A workspace, a group under it, and the workspace moved under the group. */
  const BEFORE: Nodes := map[1 := Node(Workspace, None, [SubNode(2)]), 2 := Node(Group, Some(1), [])]
  const AFTER: Nodes := map[1 := Node(Workspace, Some(2), [SubNode(2)]), 2 := Node(Group, Some(1), [SubNode(1)])]

  lemma BeforeIs()
    ensures Created(Created(map[], 1, Workspace, None), 2, Group, Some(1)) == BEFORE
  {
    assert [] + [SubNode(2)] == [SubNode(2)];
  }

  lemma AfterIs()
    ensures Reparented(BEFORE, 1, Some(2)) == AFTER
  {
    assert [] + [SubNode(1)] == [SubNode(1)];
  }

  /** The code accepts such a move: both nodes exist and differ. */
  lemma CycleIsAccepted()
    ensures IsForest(BEFORE) && 1 in BEFORE && 2 in BEFORE
    ensures Reparented(BEFORE, 1, Some(2)) == AFTER && !Acyclic(AFTER)
  {
    EmptyIsForest();
    CreateKeeps(map[], 1, Workspace, None);
    CreateKeeps(Created(map[], 1, Workspace, None), 2, Group, Some(1));
    BeforeIs();
    AfterIs();
    hide Created, Reparented, IsForest;
    assert Above(BEFORE, 2, 1) == Above(BEFORE, 1, 0) == Some(1);
    MoveInBreaks(BEFORE, 1, 2);
  }

  /** On that cycle the walk of `collect_subtree` never empties its worklist. */
  lemma {:induction false} WalkNeverEnds(k: nat)
    ensures Frontier(AFTER, 1, k) == [if k % 2 == 0 then 1 else 2]
    decreases k
  {
    if k > 0 {
      WalkNeverEnds(k - 1);
      assert Kids([SubNode(2)]) == Kids([]) + [2] && Kids([SubNode(1)]) == Kids([]) + [1];
    }
  }

  // ---------------------------------------------------------------- runs

  datatype Op =
    | Create(id: u64, kind: Kind, under: Option<u64>)
    | AttachLeaf(node: u64, session: u64)
    | Reparent(node: u64, to: Option<u64>)
    | Close(root: u64, gone: set<u64>)

  /** An operation the kernel accepts, and for a move the one condition it
      does not check. */
  ghost predicate Sound(g: Nodes, op: Op) {
    match op
    case Create(id, _, p) => id !in g && (p.Some? ==> p.value in g)
    case AttachLeaf(n, _) => n in g
    case Reparent(n, p) => n in g && (p.Some? ==> p.value in g && !Under(g, p.value, n))
    case Close(root, gone) => root in g && IsSubtree(g, gone, root)
  }

  function Apply(g: Nodes, op: Op): Nodes {
    match op
    case Create(id, kind, p) => Created(g, id, kind, p)
    case AttachLeaf(n, s) => Push(g, Some(n), Leaf(s))
    case Reparent(n, p) => if n in g then Reparented(g, n, p) else g
    case Close(root, gone) => if root in g then Removed(g, gone, root, g[root].parent) else g
  }

  ghost predicate SoundRun(g: Nodes, ops: seq<Op>)
    decreases |ops|
  {
    ops == [] || (Sound(g, ops[0]) && SoundRun(Apply(g, ops[0]), ops[1..]))
  }

  function ApplyAll(g: Nodes, ops: seq<Op>): Nodes
    decreases |ops|
  {
    if ops == [] then g else ApplyAll(Apply(g, ops[0]), ops[1..])
  }

  lemma ApplyKeeps(g: Nodes, op: Op)
    requires IsForest(g) && Sound(g, op)
    ensures IsForest(Apply(g, op))
  {
    match op
    case Create(id, kind, p) => CreateKeeps(g, id, kind, p);
    case AttachLeaf(n, s) => AttachKeeps(g, n, s);
    case Reparent(n, p) => MoveOutKeeps(g, n, p);
    case Close(root, gone) => CloseKeeps(g, gone, root);
    hide IsForest;
  }

  /** Every run from the empty tree in which no node is moved into its own
      subtree is a forest at every step. */
  lemma {:induction false} RunKeeps(g: Nodes, ops: seq<Op>)
    requires IsForest(g) && SoundRun(g, ops)
    ensures IsForest(ApplyAll(g, ops))
    decreases |ops|
  {
    hide IsForest, Sound, Apply;
    if ops != [] {
      ApplyKeeps(g, ops[0]);
      RunKeeps(Apply(g, ops[0]), ops[1..]);
    }
  }

  /** What the kernel accepts and carries through: any move but one under
      itself, and the closing of any node that is not its own ancestor. */
  ghost predicate Accepted(g: Nodes, op: Op) {
    match op
    case Create(id, _, p) => id !in g && (p.Some? ==> p.value in g)
    case AttachLeaf(n, _) => n in g
    case Reparent(n, p) => n in g && (p.Some? ==> p.value in g && p.value != n)
    case Close(root, gone) => root in g && !AboveItself(g, root) && IsSubtree(g, gone, root)
  }

  ghost predicate AcceptedRun(g: Nodes, ops: seq<Op>)
    decreases |ops|
  {
    ops == [] || (Accepted(g, ops[0]) && AcceptedRun(Apply(g, ops[0]), ops[1..]))
  }

  lemma ApplyLinked(g: Nodes, op: Op)
    requires Linked(g) && Accepted(g, op)
    ensures Linked(Apply(g, op))
  {
    match op
    case Create(id, kind, p) => CreatedLinked(g, id, kind, p);
    case AttachLeaf(n, s) => AttachedLinked(g, n, s);
    case Reparent(n, p) => ReparentedLinked(g, n, p);
    case Close(root, gone) => RemovedLinked(g, gone, root);
    hide Linked;
  }

  /** Over every run of whatever the kernel accepts, moves that close a cycle
      included, parent and child links agree: every walk ends exactly where
      `WalkEndsIff` says. */
  lemma {:induction false} RunStaysLinked(g: Nodes, ops: seq<Op>)
    requires Linked(g) && AcceptedRun(g, ops)
    ensures Linked(ApplyAll(g, ops))
    decreases |ops|
  {
    hide Linked, Accepted, Apply;
    if ops != [] {
      ApplyLinked(g, ops[0]);
      RunStaysLinked(Apply(g, ops[0]), ops[1..]);
    }
  }

  lemma EmptyIsForest()
    ensures IsForest(map[])
  {
    assert Depths(map[], map[]);
  }
}
