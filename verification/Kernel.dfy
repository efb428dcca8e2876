/** The kernel's container tree, updated in place. */
module KernelObject {
  import opened VtTypes
  import opened Forest

  datatype KernelError = UnknownNode | UnknownSession | Io

  datatype Outcome<+T> = Done(value: T) | Fails(error: KernelError)

  datatype GraphEventKind = Spawn | Exit | Attach | Terminate

  datatype GraphEvent = GraphEvent(id: u64, session: u64, kind: GraphEventKind)

  /** How far a search that goes up and comes round at 2^64 - 1 is from an id. */
  function Distance(from: u64, id: u64): nat
    requires from > 0 && id > 0
  {
    if id >= from then id - from else id - from + U64_MAX
  }

  ghost predicate HasFreeId(g: Nodes) {
    exists id: u64 :: id > 0 && id !in g
  }

  /** The `k`th id the search tries. */
  function Tried(start: u64, k: nat): (id: u64)
    requires start > 0
    ensures id > 0
    decreases k
  {
    if k == 0 then start
    else
      var before := Tried(start, k - 1);
      if before == U64_MAX then 1 else before + 1
  }

  /** The first `k` ids tried are all in use. */
  ghost predicate AllTaken(g: Nodes, start: u64, k: nat)
    requires start > 0
  {
    forall j: nat :: j < k ==> Tried(start, j) in g
  }

  /** `id` is the first free one tried from `start`, and `next` is tried after it. */
  ghost predicate FirstFree(g: Nodes, start: u64, id: u64, next: u64)
    requires start > 0
  {
    exists k: nat :: id == Tried(start, k) && next == Tried(start, k + 1) && id !in g && AllTaken(g, start, k)
  }

  lemma {:induction false} TriedFinds(start: u64, id: u64, k: nat)
    requires start > 0 && id > 0 && k <= Distance(start, id)
    ensures Distance(Tried(start, k), id) == Distance(start, id) - k
    decreases k
  {
    if k > 0 {
      TriedFinds(start, id, k - 1);
    }
  }

  /** Wherever it starts, the search for an id ends exactly when one is free. */
  lemma SearchEndsIff(g: Nodes, start: u64)
    requires start > 0
    ensures (exists k: nat :: Tried(start, k) !in g) <==> HasFreeId(g)
  {
    if HasFreeId(g) {
      var id: u64 :| id > 0 && id !in g;
      TriedFinds(start, id, Distance(start, id));
      assert Tried(start, Distance(start, id)) == id;
    }
  }

  class Kernel {
    var nodes: Nodes
    var nextNode: u64
    /** Every leaf ever spawned; set once it has been terminated. */
    var leaves: map<u64, bool>
    /** What happened to leaves, oldest first. */
    var events: seq<GraphEvent>
    var nextEvent: u64

    /** Parent and child links agree, and every attached leaf is one the kernel
        has. Whether there is a cycle is `IsForest`, which only a move can
        spoil. */
    ghost predicate Valid()
      reads this
    {
      nextNode > 0 && Linked(nodes) && LeavesKnown()
    }

    ghost predicate LeavesKnown()
      reads this
    {
      forall n: u64, s: u64 :: n in nodes && Leaf(s) in nodes[n].children ==> s in leaves
    }

    constructor ()
      ensures Valid() && nodes == map[] && leaves == map[] && IsForest(nodes)
    {
      nodes, nextNode, leaves, events, nextEvent := map[], 1, map[], [], 1;
      EmptyIsForest();
    }

    /** The next id in turn that is free. The search comes round to every id but
        0, so it ends exactly when one of them is free (`SearchEndsIff`). */
    method AllocateNodeId() returns (id: u64)
      requires nextNode > 0 && HasFreeId(nodes)
      modifies `nextNode
      ensures id !in nodes && id > 0 && nextNode > 0
      ensures FirstFree(nodes, old(nextNode), id, nextNode)
    {
      ghost var free: u64 :| free > 0 && free !in nodes;
      ghost var start, k := nextNode, 0;
      while true
        invariant nextNode > 0 && nextNode == Tried(start, k)
        invariant AllTaken(nodes, start, k)
        decreases Distance(nextNode, free)
      {
        id := nextNode;
        nextNode := if nextNode == U64_MAX then 1 else nextNode + 1;
        assert nextNode == Tried(start, k + 1);
        if id !in nodes {
          return;
        }
        k := k + 1;
      }
    }

    method CreateNode(kind: Kind, parent: Option<u64>) returns (r: Outcome<u64>)
      requires Valid() && (parent.None? || parent.value in nodes ==> HasFreeId(nodes))
      modifies `nodes, `nextNode
      ensures Valid()
      ensures r.Fails? <==> parent.Some? && parent.value !in old(nodes)
      ensures r.Fails? ==> r.error == UnknownNode && nodes == old(nodes)
      ensures r.Done? ==> r.value !in old(nodes) && nodes == Created(old(nodes), r.value, kind, parent)
      ensures IsForest(old(nodes)) ==> IsForest(nodes)
    {
      if parent.Some? && parent.value !in nodes {
        return Fails(UnknownNode);
      }
      var id := AllocateNodeId();
      CreatedLinked(nodes, id, kind, parent);
      hide IsForest, Created, Linked;
      if IsForest(nodes) {
        CreateKeeps(nodes, id, kind, parent);
      }
      InsertNode(id, kind, parent);
      return Done(id);
    }

    /** The node, and its entry in its parent's list. */
    method InsertNode(id: u64, kind: Kind, parent: Option<u64>)
      requires id !in nodes && (parent.Some? ==> parent.value in nodes)
      modifies `nodes
      ensures nodes == Created(old(nodes), id, kind, parent)
    {
      nodes := nodes[id := Node(kind, parent, [])];
      if parent.Some? {
        var p := parent.value;
        nodes := nodes[p := nodes[p].(children := nodes[p].children + [SubNode(id)])];
      }
    }

    method AttachLeaf(node: u64, leaf: u64) returns (r: Outcome<()>)
      requires Valid()
      modifies `nodes
      ensures Valid()
      ensures r.Done? <==> leaf in leaves && node in old(nodes)
      ensures r.Fails? ==> r.error == if leaf !in leaves then UnknownSession else UnknownNode
      ensures nodes == if r.Done? then Push(old(nodes), Some(node), Leaf(leaf)) else old(nodes)
      ensures IsForest(old(nodes)) ==> IsForest(nodes)
    {
      if leaf !in leaves {
        return Fails(UnknownSession);
      }
      if node !in nodes {
        return Fails(UnknownNode);
      }
      AttachedLinked(nodes, node, leaf);
      hide Linked;
      if IsForest(nodes) {
        AttachKeeps(nodes, node, leaf);
      }
      nodes := nodes[node := nodes[node].(children := nodes[node].children + [Leaf(leaf)])];
      return Done(());
    }

    /** Only ever moves pointers. The tree stays a forest exactly when the new
        parent is outside the subtree that moves. */
    method ReparentNode(node: u64, parent: Option<u64>) returns (r: Outcome<()>)
      requires Valid()
      modifies `nodes
      ensures Valid()
      ensures r.Done? <==> node in old(nodes) && (parent.Some? ==> parent.value in old(nodes) && parent.value != node)
      ensures r.Fails? ==> r.error == UnknownNode && nodes == old(nodes)
      ensures r.Done? ==> nodes == Reparented(old(nodes), node, parent)
      ensures r.Done? && IsForest(old(nodes)) ==>
                (IsForest(nodes) <==> !(parent.Some? && Under(old(nodes), parent.value, node)))
    {
      if node !in nodes {
        return Fails(UnknownNode);
      }
      if parent.Some? {
        if parent.value !in nodes || parent.value == node {
          return Fails(UnknownNode);
        }
      }
      if IsForest(nodes) {
        ReparentKeepsIff(nodes, node, parent);
      }
      ReparentedLinked(nodes, node, parent);
      hide IsForest, Under, Reparented, Linked, LeavesKnown;
      MovePointers(node, parent);
      return Done(());
    }

    method MovePointers(node: u64, parent: Option<u64>)
      requires LeavesKnown() && node in nodes && (parent.Some? ==> parent.value in nodes)
      modifies `nodes
      ensures LeavesKnown() && nodes == Reparented(old(nodes), node, parent)
    {
      ghost var was := nodes;
      var op := nodes[node].parent;
      if op.Some? && op.value in nodes {
        nodes := nodes[op.value := nodes[op.value].(children := Without(nodes[op.value].children, node))];
      }
      ghost var unlinked := nodes;
      assert unlinked == Unlink(was, was[node].parent, node);
      if parent.Some? {
        var p := parent.value;
        nodes := nodes[p := nodes[p].(children := nodes[p].children + [SubNode(node)])];
      }
      assert nodes == Push(unlinked, parent, SubNode(node));
      nodes := nodes[node := nodes[node].(parent := parent)];
    }

    // ---------------------------------------------------------------- close

    /** Append the containers among a node's children to both lists. */
    method OpenNode(id: u64, out: seq<u64>, frontier: seq<u64>) returns (out': seq<u64>, frontier': seq<u64>)
      requires id in nodes
      ensures out' == out + Kids(nodes[id].children) && frontier' == frontier + Kids(nodes[id].children)
    {
      var cs := nodes[id].children;
      out', frontier' := out, frontier;
      var i := 0;
      while i < |cs|
        invariant 0 <= i <= |cs|
        invariant out' == out + Kids(cs[..i]) && frontier' == frontier + Kids(cs[..i])
      {
        assert cs[..i + 1][..i] == cs[..i];
        if cs[i].SubNode? {
          out', frontier' := out' + [cs[i].id], frontier' + [cs[i].id];
        }
        i := i + 1;
      }
      assert cs[..|cs|] == cs;
    }

    /** Every node of the subtree, each exactly once. The walk ends exactly when
        its root is not its own ancestor (`Forest.WalkEndsIff`). */
    method CollectSubtree(root: u64) returns (r: Outcome<seq<u64>>)
      requires Linked(nodes) && !AboveItself(nodes, root)
      ensures r.Done? <==> root in nodes
      ensures r.Fails? ==> r.error == UnknownNode
      ensures r.Done? ==> NoDuplicates(r.value) && IsSubtree(nodes, SetOf(r.value), root)
    {
      if root !in nodes {
        return Fails(UnknownNode);
      }
      var out, frontier := [root], [root];
      ghost var done: set<u64> := {};
      WalkStarts(nodes, root);
      hide Walking, Linked, AboveItself;
      while frontier != []
        invariant Walking(nodes, root, out, frontier)
        invariant done <= nodes.Keys && forall x: u64 :: x in done ==> x in out && x !in frontier
        decreases |nodes.Keys - done|
      {
        WalkGoesOn(nodes, root, out, frontier);
        var id := frontier[|frontier| - 1];
        ghost var was := done;
        done := done + {id};
        OpenedGrows(nodes.Keys, was, id);
        out, frontier := OpenNode(id, out, frontier[..|frontier| - 1]);
      }
      WalkDone(nodes, root, out, frontier);
      return Done(out);
    }

    lemma WalkDone(g: Nodes, root: u64, out: seq<u64>, frontier: seq<u64>)
      requires Linked(g) && Walking(g, root, out, frontier) && frontier == []
      ensures NoDuplicates(out) && IsSubtree(g, SetOf(out), root)
    {
      WalkEnds(g, root, out);
    }

    /** `leaves_in`. */
    method CollectLeaves(ids: seq<u64>) returns (out: seq<u64>)
      ensures out == LeavesIn(nodes, ids)
    {
      out := [];
      var i := 0;
      while i < |ids|
        invariant 0 <= i <= |ids| && out == LeavesIn(nodes, ids[..i])
      {
        assert ids[..i + 1][..i] == ids[..i];
        if ids[i] in nodes {
          var cs := nodes[ids[i]].children;
          ghost var before := out;
          var j := 0;
          while j < |cs|
            invariant 0 <= j <= |cs| && out == before + Leaves(cs[..j])
          {
            assert cs[..j + 1][..j] == cs[..j];
            if cs[j].Leaf? {
              out := out + [cs[j].session];
            }
            j := j + 1;
          }
          assert cs[..|cs|] == cs;
        }
        i := i + 1;
      }
      assert ids[..|ids|] == ids;
    }

    method Record(session: u64, kind: GraphEventKind)
      modifies `events, `nextEvent
      ensures events == old(events) + [GraphEvent(old(nextEvent), session, kind)]
      ensures nextEvent == SatAdd64(old(nextEvent), 1)
    {
      var id := nextEvent;
      nextEvent := SatAdd64(nextEvent, 1);
      events := events + [GraphEvent(id, session, kind)];
    }

    /** `kills` says whether the child can be killed. The leaf is marked before
        that is tried, so a leaf whose child could not be killed counts as dead
        from then on, and its end is never recorded. */
    method Terminate(s: u64, kills: u64 -> bool) returns (r: Outcome<()>)
      modifies `leaves, `events, `nextEvent
      ensures leaves == if s in old(leaves) then old(leaves)[s := true] else old(leaves)
      ensures r == if s !in old(leaves) then Fails(UnknownSession)
                   else if old(leaves)[s] || kills(s) then Done(()) else Fails(Io)
      ensures events == if s in old(leaves) && !old(leaves)[s] && kills(s)
                        then old(events) + [GraphEvent(old(nextEvent), s, GraphEventKind.Terminate)] else old(events)
    {
      if s !in leaves {
        return Fails(UnknownSession);
      }
      if leaves[s] {
        return Done(());
      }
      leaves := leaves[s := true];
      if !kills(s) {
        return Fails(Io);
      }
      Record(s, GraphEventKind.Terminate);
      return Done(());
    }

    /** `remove_subtree`. */
    method RemoveSubtree(ids: seq<u64>, root: u64)
      requires root in nodes
      modifies `nodes
      ensures nodes == Removed(old(nodes), SetOf(ids), root, old(nodes)[root].parent)
    {
      ghost var was, parent := nodes, nodes[root].parent;
      var p := nodes[root].parent;
      if p.Some? && p.value in nodes {
        nodes := nodes[p.value := nodes[p.value].(children := Without(nodes[p.value].children, root))];
      }
      ghost var unlinked := nodes;
      assert unlinked == Unlink(was, parent, root);
      var i := 0;
      while i < |ids|
        invariant 0 <= i <= |ids| && nodes == unlinked - SetOf(ids[..i])
      {
        assert SetOf(ids[..i + 1]) == SetOf(ids[..i]) + {ids[i]};
        nodes := nodes - {ids[i]};
        i := i + 1;
      }
      assert ids[..|ids|] == ids;
    }

    /** Terminate leaves in order, stopping at the first that cannot be. */
    method TerminateAll(ss: seq<u64>, kills: u64 -> bool) returns (r: Outcome<()>)
      requires forall s: u64 :: s in ss ==> s in leaves
      modifies `leaves, `events, `nextEvent
      ensures leaves.Keys == old(leaves).Keys
      ensures forall s: u64 :: s in leaves && s !in ss ==> leaves[s] == old(leaves)[s]
      ensures forall s: u64 :: s in leaves && old(leaves)[s] ==> leaves[s]
      ensures r.Done? <==> forall s: u64 :: s in ss ==> old(leaves)[s] || kills(s)
      ensures r.Done? ==> forall s: u64 :: s in ss ==> leaves[s]
      ensures r.Fails? ==> r.error == Io
      ensures Logged(old(events), events, old(leaves), leaves, SetOf(ss), kills)
    {
      var i := 0;
      LogStarts(events, leaves, kills);
      assert SetOf(ss[..0]) == {};
      while i < |ss|
        invariant 0 <= i <= |ss| && leaves.Keys == old(leaves).Keys
        invariant forall s: u64 :: s in leaves && s !in ss[..i] ==> leaves[s] == old(leaves)[s]
        invariant forall s: u64 :: s in leaves && old(leaves)[s] ==> leaves[s]
        invariant forall s: u64 :: s in ss[..i] ==> leaves[s] && (old(leaves)[s] || kills(s))
        invariant Logged(old(events), events, old(leaves), leaves, SetOf(ss[..i]), kills)
      {
        var s := ss[i];
        assert s in ss;
        assert ss[..i + 1] == ss[..i] + [s];
        assert SetOf(ss[..i + 1]) == SetOf(ss[..i]) + {s};
        ghost var was, dead := events, leaves;
        var one := Terminate(s, kills);
        LogGrows(old(events), was, events, old(leaves), dead, leaves, SetOf(ss[..i]), s, kills);
        if one.Fails? {
          LogWidens(old(events), events, old(leaves), leaves, SetOf(ss[..i + 1]), SetOf(ss), kills);
          return Fails(Io);
        }
        i := i + 1;
      }
      assert ss[..|ss|] == ss;
      return Done(());
    }

    /** Close a node: terminate every leaf of its subtree, then remove the
        subtree. It succeeds exactly when the node exists and every such leaf
        is dead already or can be killed; when it fails no node has moved and
        no leaf outside the subtree was touched. There may be a cycle anywhere
        but through the node itself. */
    method CloseNode(root: u64, kills: u64 -> bool) returns (r: Outcome<()>)
      requires Valid() && !AboveItself(nodes, root)
      modifies `nodes, `leaves, `events, `nextEvent
      ensures Valid() && (IsForest(old(nodes)) ==> IsForest(nodes))
      ensures root !in old(nodes) ==>
                r == Fails(UnknownNode) && nodes == old(nodes) && leaves == old(leaves) && events == old(events)
      ensures root in old(nodes) ==>
                exists gone: set<u64> :: IsSubtree(old(nodes), gone, root)
                  && CloseDid(old(nodes), old(leaves), nodes, leaves, gone, root, r.Done?, kills)
                  && Logged(old(events), events, old(leaves), leaves, Held(old(nodes), old(leaves), gone), kills)
    {
      hide IsForest, IsSubtree, Holds, Removed, NoDuplicates, Linked, AboveItself, Logged;
      var ids := CollectSubtree(root);
      if ids.Fails? {
        return Fails(UnknownNode);
      }
      ghost var was, dead, log := nodes, leaves, events;
      ghost var gone := SetOf(ids.value);
      var ss := CollectLeaves(ids.value);
      SubtreeLeaves(ids.value, ss);
      HeldIs(nodes, leaves, gone, ss);
      RemovedKeeps(nodes, gone, root);
      r := TerminateAll(ss, kills);
      if r.Done? {
        LeavesStay(nodes, gone, root);
        RemoveSubtree(ids.value, root);
      }
      assert CloseDid(was, dead, nodes, leaves, gone, root, r.Done?, kills);
      hide CloseDid;
    }

    lemma HeldIs(g: Nodes, dead: map<u64, bool>, gone: set<u64>, ss: seq<u64>)
      requires forall s: u64 :: s in ss <==> Holds(g, gone, s)
      requires forall s: u64 :: s in ss ==> s in dead
      ensures SetOf(ss) == Held(g, dead, gone)
    {
      hide Holds;
    }

    lemma RemovedKeeps(g: Nodes, gone: set<u64>, root: u64)
      requires Linked(g) && root in g && IsSubtree(g, gone, root)
      ensures Linked(Removed(g, gone, root, g[root].parent))
      ensures IsForest(g) ==> IsForest(Removed(g, gone, root, g[root].parent))
    {
      RemovedLinked(g, gone, root);
      hide IsForest, Linked, IsSubtree, Removed;
      if IsForest(g) {
        CloseKeeps(g, gone, root);
      }
    }

    lemma SubtreeLeaves(ids: seq<u64>, ss: seq<u64>)
      requires Valid() && ss == LeavesIn(nodes, ids)
      ensures forall s: u64 :: s in ss <==> Holds(nodes, SetOf(ids), s)
      ensures forall s: u64 :: s in ss ==> s in leaves
    {
      forall s: u64 ensures s in ss <==> Holds(nodes, SetOf(ids), s) {
        LeavesInHolds(nodes, ids, s);
      }
    }
  }

  /** What closing did to the tree and the leaves, `gone` being the subtree. */
  ghost predicate CloseDid(g: Nodes, dead: map<u64, bool>, g': Nodes, dead': map<u64, bool>, gone: set<u64>, root: u64,
                           ok: bool, kills: u64 -> bool)
    requires root in g
  {
    && dead'.Keys == dead.Keys
    && (forall s: u64 :: Holds(g, gone, s) ==> s in dead)
    && (ok <==> forall s: u64 :: Holds(g, gone, s) ==> dead[s] || kills(s))
    && g' == (if ok then Removed(g, gone, root, g[root].parent) else g)
    && (forall s: u64 :: s in dead && !Holds(g, gone, s) ==> dead'[s] == dead[s])
    && (ok ==> forall s: u64 :: Holds(g, gone, s) ==> dead'[s])
  }

  /** The leaves attached anywhere in a set of nodes. */
  ghost function Held(g: Nodes, dead: map<u64, bool>, gone: set<u64>): (ss: set<u64>)
    ensures forall s: u64 :: s in ss <==> s in dead && Holds(g, gone, s)
  {
    set s | s in dead && Holds(g, gone, s)
  }

  /** The end of `s` is recorded from position `from` on. */
  ghost predicate EndRecorded(log: seq<GraphEvent>, from: nat, s: u64) {
    exists i :: from <= i < |log| && log[i].session == s
  }

  /** What terminating some leaves added to the log: one end, and no more, for
      each of them that was alive, was marked and could be killed. */
  ghost predicate Logged(log: seq<GraphEvent>, log': seq<GraphEvent>, dead: map<u64, bool>, dead': map<u64, bool>,
                         ss: set<u64>, kills: u64 -> bool) {
    && log <= log'
    && (forall i :: |log| <= i < |log'| ==> log'[i].kind == GraphEventKind.Terminate)
    && (forall i, j :: |log| <= i < j < |log'| ==> log'[i].session != log'[j].session)
    && (forall s: u64 :: EndRecorded(log', |log|, s) <==>
          s in ss && s in dead && !dead[s] && s in dead' && dead'[s] && kills(s))
  }

  lemma LogStarts(log: seq<GraphEvent>, dead: map<u64, bool>, kills: u64 -> bool)
    ensures Logged(log, log, dead, dead, {}, kills)
  {
  }

  /** One leaf more: recorded if it was alive and could be killed. */
  lemma LogGrows(log: seq<GraphEvent>, log1: seq<GraphEvent>, log2: seq<GraphEvent>, dead: map<u64, bool>,
                 dead1: map<u64, bool>, dead2: map<u64, bool>, ss: set<u64>, s: u64, kills: u64 -> bool)
    requires Logged(log, log1, dead, dead1, ss, kills) && s in dead1 && dead1.Keys == dead.Keys
    requires forall x: u64 :: x in dead1 && x !in ss ==> dead1[x] == dead[x]
    requires forall x: u64 :: x in ss ==> x in dead1 && dead1[x]
    requires dead2 == dead1[s := true]
    requires if !dead1[s] && kills(s) then |log2| == |log1| + 1 && log1 <= log2 && log2[|log1|].session == s
                                           && log2[|log1|].kind == GraphEventKind.Terminate
             else log2 == log1
    ensures Logged(log, log2, dead, dead2, ss + {s}, kills)
  {
    if !dead1[s] && kills(s) {
      assert !EndRecorded(log1, |log|, s);
      forall x: u64 ensures EndRecorded(log2, |log|, x) <==> EndRecorded(log1, |log|, x) || x == s {
        if x == s {
          assert log2[|log1|].session == s;
        } else if EndRecorded(log1, |log|, x) {
          var i :| |log| <= i < |log1| && log1[i].session == x;
          assert log2[i].session == x;
        }
      }
    }
  }

  /** Leaves that were not reached were not marked. */
  lemma LogWidens(log: seq<GraphEvent>, log': seq<GraphEvent>, dead: map<u64, bool>, dead': map<u64, bool>,
                  ss: set<u64>, all: set<u64>, kills: u64 -> bool)
    requires Logged(log, log', dead, dead', ss, kills) && ss <= all
    requires forall x: u64 :: x in dead' && x !in ss ==> x in dead && dead'[x] == dead[x]
    ensures Logged(log, log', dead, dead', all, kills)
  {
  }

  /** Removing nodes attaches no leaf anywhere. */
  lemma LeavesStay(g: Nodes, gone: set<u64>, root: u64)
    requires root in g
    ensures var h := Removed(g, gone, root, g[root].parent);
            forall n: u64, s: u64 :: n in h && Leaf(s) in h[n].children ==> n in g && Leaf(s) in g[n].children
  {
  }
}
