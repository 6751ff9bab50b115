// The marks that tell an ancestor of Error and Lift nodes: add_flags and the
// child list operations of NodeDef in ast.h.

module NodeMarks {
  import L = Lifting

  datatype Kind = Error | Lift | Ordinary(id: nat)

  class NodeDef {
    const kind: Kind
    var parent: NodeDef?
    var children: seq<NodeDef>
    var containsError: bool
    var containsLift: bool

    constructor (kind: Kind)
      ensures this.kind == kind && parent == null && children == [] && !containsError && !containsLift
    {
      this.kind := kind;
      parent, children, containsError, containsLift := null, [], false, false;
    }

    predicate HasError()
      reads this
    {
      kind == Error || containsError
    }

    predicate HasLift()
      reads this
    {
      kind == Lift || containsLift
    }
  }

  /** Parents are among the nodes, and going up decreases the depth, so it ends. */
  ghost predicate Rooted(nodes: set<NodeDef>, depth: map<NodeDef, nat>)
    reads nodes
  {
    && nodes <= depth.Keys
    && forall n :: n in nodes && n.parent != null ==> n.parent in nodes && depth[n.parent] < depth[n]
  }

  ghost predicate ErrorSeen(n: NodeDef)
    reads n, n.parent
  {
    n.parent != null && n.HasError() ==> n.parent.containsError
  }

  ghost predicate LiftSeen(n: NodeDef)
    reads n, n.parent
  {
    n.parent != null && n.HasLift() ==> n.parent.containsLift
  }

  /** Every ancestor of a marked or special node is marked, except that the node `open` may not have told its parent yet. */
  ghost predicate ErrorsMarked(nodes: set<NodeDef>, open: NodeDef?)
    reads nodes, set n | n in nodes && n.parent != null :: n.parent
  {
    forall n :: n in nodes && n != open ==> ErrorSeen(n)
  }

  ghost predicate LiftsMarked(nodes: set<NodeDef>, open: NodeDef?)
    reads nodes, set n | n in nodes && n.parent != null :: n.parent
  {
    forall n :: n in nodes && n != open ==> LiftSeen(n)
  }

  /** `m` lies `steps` levels above `n`. */
  ghost predicate Above(nodes: set<NodeDef>, n: NodeDef, m: NodeDef, steps: nat)
    reads nodes
    decreases steps
  {
    n in nodes && if steps == 0 then m == n else n.parent != null && Above(nodes, n.parent, m, steps - 1)
  }

  /** Complete marks show at every ancestor of a Lift node, not only at its parent. */
  lemma {:induction false} AncestorsMarked(nodes: set<NodeDef>, n: NodeDef, m: NodeDef, steps: nat)
    requires LiftsMarked(nodes, null) && Above(nodes, n, m, steps) && steps > 0 && n.HasLift()
    ensures m.containsLift
    decreases steps
  {
    assert LiftSeen(n);
    if steps > 1 {
      AncestorsMarked(nodes, n.parent, m, steps - 1);
    }
  }

  /** Marks the ancestors of a node that holds an error, up to the first one that is marked already. */
  method MarkErrors(start: NodeDef, ghost nodes: set<NodeDef>, ghost depth: map<NodeDef, nat>)
    requires start in nodes && Rooted(nodes, depth) && ErrorsMarked(nodes, start) && start.HasError()
    modifies nodes`containsError
    ensures Rooted(nodes, depth) && ErrorsMarked(nodes, null)
    ensures forall n :: n in nodes && old(n.containsError) ==> n.containsError
  {
    var curr, below: NodeDef := start.parent, start;
    while curr != null
      invariant curr == below.parent && below in nodes && below.HasError()
      invariant Rooted(nodes, depth) && ErrorsMarked(nodes, below)
      invariant forall n :: n in nodes && old(n.containsError) ==> n.containsError
      decreases depth[below]
    {
      if curr.containsError {
        return;
      }
      curr.containsError := true;
      below := curr;
      curr := curr.parent;
    }
  }

  /** Marks the ancestors of a node that holds a Lift node, up to the first one that is marked already. */
  method MarkLifts(start: NodeDef, ghost nodes: set<NodeDef>, ghost depth: map<NodeDef, nat>)
    requires start in nodes && Rooted(nodes, depth) && LiftsMarked(nodes, start) && start.HasLift()
    modifies nodes`containsLift
    ensures Rooted(nodes, depth) && LiftsMarked(nodes, null)
    ensures forall n :: n in nodes && old(n.containsLift) ==> n.containsLift
  {
    var curr, below: NodeDef := start.parent, start;
    while curr != null
      invariant curr == below.parent && below in nodes && below.HasLift()
      invariant Rooted(nodes, depth) && LiftsMarked(nodes, below)
      invariant forall n :: n in nodes && old(n.containsLift) ==> n.containsLift
      decreases depth[below]
    {
      if curr.containsLift {
        return;
      }
      curr.containsLift := true;
      below := curr;
      curr := curr.parent;
    }
  }

  /**
   * Tells the ancestors of a node that has just been attached. A node that
   * holds an error tells only of that: then the Lift marks are as complete as
   * they were, which is to say exactly if the parent knew of a Lift node, or
   * there was none to tell of.
   */
  method AddFlags(node: NodeDef, ghost nodes: set<NodeDef>, ghost depth: map<NodeDef, nat>)
    requires node in nodes && Rooted(nodes, depth) && ErrorsMarked(nodes, node) && LiftsMarked(nodes, node)
    modifies nodes`containsError, nodes`containsLift
    ensures Rooted(nodes, depth) && ErrorsMarked(nodes, null)
    ensures LiftsMarked(nodes, null) <==> (node.HasError() ==> old(LiftSeen(node)))
    ensures node.HasError() == old(node.HasError())
    ensures !old(node.HasError()) ==> forall n :: n in nodes ==> n.containsError == old(n.containsError)
    ensures old(node.HasError()) ==> forall n :: n in nodes ==> n.containsLift == old(n.containsLift)
  {
    if node.kind == Error || node.containsError {
      MarkErrors(node, nodes, depth);
    } else if node.kind == Lift || node.containsLift {
      MarkLifts(node, nodes, depth);
    }
  }

  /** Appends a root as the last child. Depths are those after the move. */
  method PushBack(parent: NodeDef, node: NodeDef, ghost nodes: set<NodeDef>, ghost depth: map<NodeDef, nat>)
    requires parent in nodes && node in nodes && node.parent == null
    requires Rooted(nodes, depth) && depth[parent] < depth[node]
    requires ErrorsMarked(nodes, null) && LiftsMarked(nodes, null)
    modifies parent`children, node`parent, nodes`containsError, nodes`containsLift
    ensures parent.children == old(parent.children) + [node] && node.parent == parent
    ensures Rooted(nodes, depth) && ErrorsMarked(nodes, null)
    ensures LiftsMarked(nodes, null) <==> (old(node.HasError()) && old(node.HasLift()) ==> old(parent.containsLift))
    ensures old(Attached(nodes)) ==> Attached(nodes)
    ensures old(ErrorFree(nodes)) ==> ErrorFree(nodes) && LiftsMarked(nodes, null)
    ensures !old(node.HasError()) ==> forall n :: n in nodes ==> n.containsError == old(n.containsError)
    ensures old(node.HasError()) ==> forall n :: n in nodes ==> n.containsLift == old(n.containsLift)
  {
    Attach(parent, node, nodes, depth);
    AddFlags(node, nodes, depth);
  }

  /** A node with a Lift child. */
  method HoldLift(id: nat) returns (holder: NodeDef, lift: NodeDef)
    ensures fresh(holder) && fresh(lift) && holder.kind == Ordinary(id) && lift.kind == Lift
    ensures holder.parent == null && lift.parent == holder && holder.children == [lift]
    ensures holder.containsLift && !holder.containsError && !lift.containsError
  {
    holder := new NodeDef(Ordinary(id));
    lift := new NodeDef(Lift);
    PushBack(holder, lift, {holder, lift}, map[holder := 1, lift := 2]);
    assert LiftSeen(lift);
  }

  /** A node with a Lift and an Error child. */
  method HoldBoth(id: nat) returns (holder: NodeDef, lift: NodeDef, error: NodeDef)
    ensures fresh(holder) && fresh(lift) && fresh(error) && holder.parent == null
    ensures holder.kind == Ordinary(id) && lift.kind == Lift && error.kind == Error
    ensures holder.children == [lift, error] && lift.parent == holder && error.parent == holder
    ensures holder.containsLift && holder.containsError
  {
    holder, lift := HoldLift(id);
    error := new NodeDef(Error);
    PushBack(holder, error, {holder, lift, error}, map[holder := 1, lift := 2, error := 2]);
    assert ErrorSeen(error);
  }

  /** A node that holds both is attached: its Lift mark does not reach the root. */
  method LoseMark(id: nat) returns (root: NodeDef, holder: NodeDef, lift: NodeDef)
    ensures lift.kind == Lift && lift.parent == holder && holder.parent == root && root.children == [holder]
    ensures holder.containsLift && root.containsError && !root.containsLift
  {
    var error: NodeDef;
    root := new NodeDef(Ordinary(id));
    holder, lift, error := HoldBoth(id);
    ghost var nodes := {root, holder, lift, error};
    ghost var depth: map<NodeDef, nat> := map[root := 0, holder := 1, lift := 2, error := 2];
    PushBack(root, holder, nodes, depth);
    assert ErrorSeen(holder);
  }

  /** Links parent and child; only the child's own marks may not have reached the parent yet. */
  method Attach(parent: NodeDef, node: NodeDef, ghost nodes: set<NodeDef>, ghost depth: map<NodeDef, nat>)
    requires parent in nodes && node in nodes && node.parent == null
    requires Rooted(nodes, depth) && depth[parent] < depth[node]
    requires ErrorsMarked(nodes, null) && LiftsMarked(nodes, null)
    modifies parent`children, node`parent
    ensures parent.children == old(parent.children) + [node] && node.parent == parent
    ensures Rooted(nodes, depth) && ErrorsMarked(nodes, node) && LiftsMarked(nodes, node)
    ensures old(Attached(nodes)) ==> Attached(nodes)
  {
    parent.children := parent.children + [node];
    node.parent := parent;
  }

  /** Takes the last child off; the marks above it stay, which excludes nothing that is below. */
  method PopBack(parent: NodeDef, ghost nodes: set<NodeDef>, ghost depth: map<NodeDef, nat>) returns (node: NodeDef?)
    requires parent in nodes && Rooted(nodes, depth) && ErrorsMarked(nodes, null) && LiftsMarked(nodes, null)
    requires forall c :: c in parent.children ==> c in nodes
    modifies parent`children, nodes`parent
    ensures Rooted(nodes, depth) && ErrorsMarked(nodes, null) && LiftsMarked(nodes, null)
    ensures if old(parent.children) == [] then node == null && parent.children == []
            else node == old(parent.children)[|old(parent.children)| - 1] && old(parent.children) == parent.children + [node] &&
                 (old(node.parent) == parent ==> node.parent == null)
  {
    if parent.children == [] {
      return null;
    }
    var last := parent.children[|parent.children| - 1];
    assert last in parent.children;
    parent.children := parent.children[..|parent.children| - 1];
    if last.parent == parent {
      last.parent := null;
    }
    node := last;
  }

  // ---------------------------------------------------------------------
  // The trees that lifting works on
  // ---------------------------------------------------------------------

  /** Children know their parent. */
  ghost predicate Attached(nodes: set<NodeDef>)
    reads nodes
  {
    forall n, c :: n in nodes && c in n.children ==> c in nodes && c.parent == n
  }

  ghost predicate ErrorFree(nodes: set<NodeDef>)
    reads nodes
  {
    forall n :: n in nodes ==> !n.HasError()
  }

  function KindOf(k: Kind): L.Kind
  {
    match k
    case Lift => L.LIFT
    case Error => 1
    case Ordinary(id) => id + 2
  }

  /** The tree below a node as a value; nodes are told apart by their names. */
  ghost function TreeOf(n: NodeDef, nodes: set<NodeDef>, depth: map<NodeDef, nat>, limit: nat, names: map<NodeDef, nat>): (t: L.Tree)
    requires n in nodes && Rooted(nodes, depth) && Attached(nodes) && nodes <= names.Keys
    requires forall m :: m in nodes ==> depth[m] < limit
    reads nodes
    ensures t.kind == KindOf(n.kind) && t.marked == n.containsLift && |t.children| == |n.children|
    decreases limit - depth[n]
  {
    L.Node(KindOf(n.kind), names[n], n.containsLift,
           seq(|n.children|, k requires 0 <= k < |n.children| && n in nodes && Rooted(nodes, depth) && Attached(nodes) reads nodes =>
             assert n.children[k] in n.children;
             TreeOf(n.children[k], nodes, depth, limit, names)))
  }

  /** Complete Lift marks are what lifting asks of a tree. */
  lemma {:induction false} MarkedIsClosed(n: NodeDef, nodes: set<NodeDef>, depth: map<NodeDef, nat>, limit: nat, names: map<NodeDef, nat>)
    requires n in nodes && Rooted(nodes, depth) && Attached(nodes) && nodes <= names.Keys
    requires forall m :: m in nodes ==> depth[m] < limit
    requires LiftsMarked(nodes, null)
    ensures L.Closed(TreeOf(n, nodes, depth, limit, names))
    decreases limit - depth[n]
  {
    var t := TreeOf(n, nodes, depth, limit, names);
    forall k | 0 <= k < |t.children|
      ensures (t.children[k].kind == L.LIFT || t.children[k].marked ==> t.marked) && L.Closed(t.children[k])
    {
      var c := n.children[k];
      assert c in n.children;
      assert LiftSeen(c);
      assert t.children[k] == TreeOf(c, nodes, depth, limit, names);
      MarkedIsClosed(c, nodes, depth, limit, names);
    }
  }

  /**
   * Trees put together by appending fresh Error-free nodes meet what lifting
   * asks: this holds before the first node is appended, every `PushBack`
   * keeps it, and it makes the tree below any node closed.
   */
  lemma FreshNodes(nodes: set<NodeDef>, depth: map<NodeDef, nat>)
    requires nodes <= depth.Keys
    requires forall n :: n in nodes ==> n.parent == null && n.children == [] && !n.containsError && !n.containsLift && n.kind != Error
    ensures Rooted(nodes, depth) && Attached(nodes) && ErrorFree(nodes) && ErrorsMarked(nodes, null) && LiftsMarked(nodes, null)
  {
  }
}
