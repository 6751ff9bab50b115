// Well-formedness specifications: what the generator of wf.h builds, the
// checker of wf.h accepts.

module TreeGenerator {
  import opened Options

  // ---------------------------------------------------------------------
  // Specifications
  // ---------------------------------------------------------------------

  /** A token type; nodes of scope types own a symbol table. */
  datatype Token = Token(id: nat, scope: bool)

  const ERROR: Token := Token(0, false)
  const INVALID: Token := Token(1, false)

  datatype Field = Field(name: Token, types: seq<Token>)

  /** A run of children of given types, or one child per field; the name of one field may be bound to the node. */
  datatype Shape = Sequence(types: seq<Token>, min: nat, max: nat) | Fields(fields: seq<Field>, binding: Token)

  type Spec = map<Token, Shape>

  /** No sequence has its bounds inverted. */
  ghost predicate Ordered(spec: Spec)
  {
    forall t :: t in spec && spec[t].Sequence? ==> spec[t].min <= spec[t].max
  }

  // ---------------------------------------------------------------------
  // Trees
  // ---------------------------------------------------------------------

  /** A node; nodes are numbered in the order of their creation. Names stand for the text of locations. */
  datatype Cell = Cell(token: Token, name: nat, parent: Option<nat>, children: seq<nat>, symbols: map<nat, seq<nat>>)

  type Cells = seq<Cell>

  /** Parents and children know each other, and parents are older. */
  ghost predicate Linked(cells: Cells)
  {
    && (forall id :: 0 <= id < |cells| && cells[id].parent.Some? ==> cells[id].parent.value < id)
    && (forall id, k :: 0 <= id < |cells| && 0 <= k < |cells[id].children| ==>
         id < cells[id].children[k] < |cells| && cells[cells[id].children[k]].parent == Some(id))
  }

  /** The closest node above that owns a symbol table. */
  function ScopeOf(cells: Cells, id: nat): (scope: Option<nat>)
    ensures scope.Some? ==> scope.value < |cells|
    decreases id, |cells|
  {
    if id >= |cells| || cells[id].parent.None? || cells[id].parent.value >= id then None
    else
      var p := cells[id].parent.value;
      if cells[p].token.scope then Some(p) else ScopeOf(cells, p)
  }

  /** The symbol table in scope binds the name to the node. */
  predicate Bound(cells: Cells, id: nat, name: nat)
  {
    var scope := ScopeOf(cells, id);
    scope.Some? && name in cells[scope.value].symbols && id in cells[scope.value].symbols[name]
  }

  // ---------------------------------------------------------------------
  // The checker
  // ---------------------------------------------------------------------

  predicate IsError(cells: Cells, id: nat)
  {
    id < |cells| && cells[id].token == ERROR
  }

  predicate Accepts(cells: Cells, types: seq<Token>, id: nat)
  {
    IsError(cells, id) || (id < |cells| && cells[id].token in types)
  }

  /** The children from the `k`-th on fit the fields; an Error ends the check. */
  predicate FieldsFit(cells: Cells, id: nat, fields: seq<Field>, binding: Token, k: nat)
    requires id < |cells| && k <= |cells[id].children|
    decreases |cells[id].children| - k
  {
    var children := cells[id].children;
    if k == |children| then |children| == |fields|
    else if IsError(cells, children[k]) then true
    else if k >= |fields| then false
    else
      && Accepts(cells, fields[k].types, children[k])
      && (binding != INVALID && fields[k].name == binding ==> Bound(cells, id, cells[children[k]].name))
      && FieldsFit(cells, id, fields, binding, k + 1)
  }

  predicate HasError(cells: Cells, id: nat)
    requires id < |cells|
  {
    exists c :: c in cells[id].children && IsError(cells, c)
  }

  predicate ShapeFits(cells: Cells, id: nat, shape: Shape)
    requires id < |cells|
  {
    var children := cells[id].children;
    match shape
    case Sequence(types, min, max) =>
      && (forall c :: c in children ==> Accepts(cells, types, c))
      && (HasError(cells, id) || min <= |children| <= max)
    case Fields(fields, binding) => FieldsFit(cells, id, fields, binding, 0)
  }

  /** The checker's verdict on a subtree; `marked` tells which nodes are flagged as containing an Error. */
  predicate Check(spec: Spec, cells: Cells, marked: nat -> bool, id: nat)
    requires id < |cells|
    decreases |cells| - id
  {
    var c := cells[id];
    c.token == ERROR ||
    (if marked(id) then ChildrenCheck(spec, cells, marked, id, 0)
     else if c.token !in spec then c.children == []
     else
       && (forall k :: 0 <= k < |c.children| ==> c.children[k] < |cells| && cells[c.children[k]].parent == Some(id))
       && ShapeFits(cells, id, spec[c.token]) && ChildrenCheck(spec, cells, marked, id, 0))
  }

  predicate ChildrenCheck(spec: Spec, cells: Cells, marked: nat -> bool, id: nat, k: nat)
    requires id < |cells| && k <= |cells[id].children|
    decreases |cells| - id, -1, |cells[id].children| - k
  {
    k == |cells[id].children| ||
    (id < cells[id].children[k] < |cells| && Check(spec, cells, marked, cells[id].children[k]) &&
     ChildrenCheck(spec, cells, marked, id, k + 1))
  }

  /** A specification without shapes accepts any tree. */
  predicate Wellformed(spec: Spec, cells: Cells, marked: nat -> bool, id: nat)
    requires id < |cells|
  {
    spec == map[] || Check(spec, cells, marked, id)
  }

  // ---------------------------------------------------------------------
  // What the generator leaves behind
  // ---------------------------------------------------------------------

  ghost predicate TypesFit(cells: Cells, types: seq<Token>, id: nat)
    requires id < |cells|
  {
    forall k :: 0 <= k < |cells[id].children| ==> cells[id].children[k] < |cells| && cells[cells[id].children[k]].token in types
  }

  /** The first `n` children stand for the first `n` fields, and are bound where a binding is asked for. */
  ghost predicate FieldsFilled(cells: Cells, id: nat, fields: seq<Field>, binding: Token, n: nat)
    requires id < |cells| && n <= |fields|
  {
    |cells[id].children| == n &&
    forall k :: 0 <= k < n ==> FieldFilled(cells, id, fields[k], binding, cells[id].children[k])
  }

  ghost predicate FieldFilled(cells: Cells, id: nat, field: Field, binding: Token, child: nat)
  {
    && child < |cells| && cells[child].token in field.types
    && (field.name == binding ==> Bound(cells, id, cells[child].name))
  }

  /** The node has the shape the specification asks for, if the bounds of its sequence are in order. */
  ghost predicate Built(spec: Spec, cells: Cells, id: nat)
    requires id < |cells|
  {
    var c := cells[id];
    if c.token !in spec then c.children == []
    else
      match spec[c.token]
      case Sequence(types, min, max) => TypesFit(cells, types, id) && min <= |c.children| <= if min <= max then max else min
      case Fields(fields, binding) => FieldsFilled(cells, id, fields, binding, |fields|)
  }

  /** Bindings are only added. */
  ghost predicate Binds(a: map<nat, seq<nat>>, b: map<nat, seq<nat>>)
  {
    forall name :: name in a ==> name in b && forall id :: id in a[name] ==> id in b[name]
  }

  /** Nodes are only added, and bindings; apart from that, only the children of `open` change. */
  ghost predicate Grows(cells: Cells, more: Cells, open: Option<nat>)
  {
    && |cells| <= |more|
    && forall id :: 0 <= id < |cells| ==>
         && more[id].token == cells[id].token && more[id].name == cells[id].name && more[id].parent == cells[id].parent
         && Binds(cells[id].symbols, more[id].symbols)
         && (open != Some(id) ==> more[id].children == cells[id].children)
  }

  /** A cell is added as the last child of a node. */
  function WithChild(cells: Cells, node: nat, child: Cell): Cells
    requires node < |cells|
  {
    cells[node := cells[node].(children := cells[node].children + [|cells|])] + [child]
  }

  lemma ChildAdded(cells: Cells, node: nat, child: Cell)
    requires Linked(cells) && node < |cells| && child.parent == Some(node) && child.children == []
    ensures Linked(WithChild(cells, node, child)) && Grows(cells, WithChild(cells, node, child), Some(node))
  {
    var more := WithChild(cells, node, child);
    forall id, k | 0 <= id < |more| && 0 <= k < |more[id].children|
      ensures id < more[id].children[k] < |more| && more[more[id].children[k]].parent == Some(id)
    {
      if id == node && k == |cells[node].children| {
        assert more[id].children[k] == |cells|;
      } else {
        assert id < |cells| && more[id].children[k] == cells[id].children[k];
      }
    }
  }

  lemma GrowsOn(a: Cells, b: Cells, c: Cells, open: Option<nat>)
    requires Grows(a, b, open) && Grows(b, c, open)
    ensures Grows(a, c, open)
  {
  }

  lemma {:induction false} ScopeStays(cells: Cells, more: Cells, open: Option<nat>, id: nat)
    requires Grows(cells, more, open) && id < |cells|
    ensures ScopeOf(more, id) == ScopeOf(cells, id)
    decreases id
  {
    if cells[id].parent.Some? && cells[id].parent.value < id {
      ScopeStays(cells, more, open, cells[id].parent.value);
    }
  }

  lemma {:induction false} BoundStays(cells: Cells, more: Cells, open: Option<nat>, id: nat, name: nat)
    requires Grows(cells, more, open) && id < |cells| && Bound(cells, id, name)
    ensures Bound(more, id, name)
  {
    ScopeStays(cells, more, open, id);
  }

  lemma {:induction false} FieldStays(cells: Cells, more: Cells, open: Option<nat>, id: nat, field: Field, binding: Token, child: nat)
    requires Grows(cells, more, open) && id < |cells| && FieldFilled(cells, id, field, binding, child)
    ensures FieldFilled(more, id, field, binding, child)
  {
    if field.name == binding {
      BoundStays(cells, more, open, id, cells[child].name);
    }
  }

  /** What has been built stays built. */
  lemma {:induction false} BuiltStays(spec: Spec, cells: Cells, more: Cells, open: Option<nat>, id: nat)
    requires Grows(cells, more, open) && id < |cells| && open != Some(id) && Built(spec, cells, id)
    ensures Built(spec, more, id)
  {
    var c := cells[id];
    if c.token in spec && spec[c.token].Fields? {
      forall k | 0 <= k < |c.children|
        ensures FieldFilled(more, id, spec[c.token].fields[k], spec[c.token].binding, c.children[k])
      {
        FieldStays(cells, more, open, id, spec[c.token].fields[k], spec[c.token].binding, c.children[k]);
      }
    }
  }

  // ---------------------------------------------------------------------
  // The generator
  // ---------------------------------------------------------------------

  /**
   * The random choices are those of an oracle: which candidate is taken, if
   * the weights leave any, whether a sequence goes on, and the text of a
   * location.
   */
  datatype Oracle = Oracle(choose: nat -> Option<nat>, goOn: nat -> bool, name: nat -> nat)

  class Gen {
    const spec: Spec
    const oracle: Oracle
    var cells: Cells
    var draws: nat

    constructor (spec: Spec, oracle: Oracle)
      ensures this.spec == spec && this.oracle == oracle && cells == []
    {
      this.spec, this.oracle := spec, oracle;
      cells, draws := [], 0;
    }

    /** A candidate, or no success where none can be taken. */
    method Choose(types: seq<Token>) returns (token: Option<Token>)
      modifies this`draws
      ensures token.Some? ==> token.value in types
    {
      draws := draws + 1;
      var pick := oracle.choose(draws);
      if types == [] || pick.None? {
        return None;
      }
      return Some(types[pick.value % |types|]);
    }

    /** A new child of one of the given types. */
    method GenChild(types: seq<Token>, node: nat) returns (ok: bool)
      requires Linked(cells) && node < |cells|
      modifies this
      ensures Linked(cells) && Grows(old(cells), cells, Some(node))
      ensures !ok ==> cells == old(cells)
      ensures ok ==> |cells| == |old(cells)| + 1 && cells[node].children == old(cells[node].children) + [|old(cells)|]
      ensures ok ==> cells[|old(cells)|].token in types && cells[|old(cells)|].children == []
    {
      var token := Choose(types);
      if token.None? {
        return false;
      }
      var child := |cells|;
      draws := draws + 1;
      ChildAdded(cells, node, Cell(token.value, oracle.name(draws), Some(node), [], map[]));
      cells := cells[node := cells[node].(children := cells[node].children + [child])] +
               [Cell(token.value, oracle.name(draws), Some(node), [], map[])];
      return true;
    }

    /** Binds a name to a node in the closest scope above; without one there is no success. */
    method Bind(node: nat, name: nat) returns (ok: bool)
      requires Linked(cells) && node < |cells|
      modifies this`cells
      ensures Linked(cells) && Grows(old(cells), cells, None) && |cells| == |old(cells)|
      ensures ok ==> Bound(cells, node, name)
      ensures !ok ==> cells == old(cells)
    {
      var p: Option<nat> := cells[node].parent;
      while p.Some? && !cells[p.value].token.scope
        invariant cells == old(cells) && (p.Some? ==> p.value < |cells|)
        invariant ScopeOf(cells, node) == if p.None? then None else if cells[p.value].token.scope then p else ScopeOf(cells, p.value)
        decreases if p.Some? then p.value + 1 else 0
      {
        p := cells[p.value].parent;
      }
      if p.None? {
        return false;
      }
      var scope := p.value;
      var bound := if name in cells[scope].symbols then cells[scope].symbols[name] else [];
      cells := cells[scope := cells[scope].(symbols := cells[scope].symbols[name := bound + [node]])];
      ScopeStays(old(cells), cells, None, node);
      return true;
    }

    /** The node has `n` children of the given types, all of them new. */
    ghost predicate Lined(base: nat, types: seq<Token>, node: nat, n: nat)
      reads this
    {
      Linked(cells) && Fresh(base, node) && TypesFit(cells, types, node) && |cells[node].children| == n
    }

    /** One more child of a sequence. */
    method GenNext(types: seq<Token>, node: nat, ghost base: nat, ghost n: nat) returns (ok: bool)
      requires Lined(base, types, node, n)
      modifies this
      ensures Linked(cells) && Grows(old(cells), cells, Some(node))
      ensures ok ==> Lined(base, types, node, n + 1)
    {
      ok := GenChild(types, node);
    }

    /** At least the least number of children, and more as long as the generator goes on. */
    method GenSequence(types: seq<Token>, min: nat, max: nat, mayGoOn: bool, node: nat) returns (ok: bool)
      requires Linked(cells) && node < |cells| && cells[node].children == []
      modifies this
      ensures Linked(cells) && Grows(old(cells), cells, Some(node))
      ensures ok ==> TypesFit(cells, types, node) && min <= |cells[node].children| <= if min <= max then max else min
      ensures ok ==> Fresh(|old(cells)|, node)
    {
      var i := 0;
      while i < min
        invariant i <= min && Grows(old(cells), cells, Some(node)) && Lined(|old(cells)|, types, node, i)
      {
        ok := GenNext(types, node, |old(cells)|, i);
        if !ok {
          return;
        }
        i := i + 1;
      }
      if !mayGoOn {
        return true;
      }
      ok := GenMore(types, i, max, node, |old(cells)|);
    }

    /** As many further children as the draws ask for, up to the upper bound. */
    method GenMore(types: seq<Token>, start: nat, max: nat, node: nat, ghost base: nat) returns (ok: bool)
      requires Lined(base, types, node, start)
      modifies this
      ensures Linked(cells) && Grows(old(cells), cells, Some(node))
      ensures ok ==> exists n: nat :: start <= n <= (if start <= max then max else start) && Lined(base, types, node, n)
    {
      var i := start;
      while i < max && oracle.goOn(draws)
        invariant start <= i <= if start <= max then max else start
        invariant Grows(old(cells), cells, Some(node)) && Lined(base, types, node, i)
        decreases max - i
      {
        draws := draws + 1;
        ok := GenNext(types, node, base, i);
        if !ok {
          return;
        }
        i := i + 1;
      }
      return true;
    }

    /** One child per field; the field that names the binding binds the node. */
    method GenFields(fields: seq<Field>, binding: Token, node: nat) returns (ok: bool)
      requires Linked(cells) && node < |cells| && cells[node].children == []
      modifies this
      ensures Linked(cells) && Grows(old(cells), cells, Some(node))
      ensures ok ==> FieldsFilled(cells, node, fields, binding, |fields|)
      ensures ok ==> Fresh(|old(cells)|, node)
    {
      for n := 0 to |fields|
        invariant Linked(cells) && Grows(old(cells), cells, Some(node))
        invariant FieldsFilled(cells, node, fields, binding, n) && Fresh(|old(cells)|, node)
      {
        ok := GenField(fields, binding, node, n);
        if !ok {
          return;
        }
      }
      return true;
    }

    /** A child for one field, and its binding. */
    method GenBound(field: Field, binding: Token, node: nat) returns (ok: bool)
      requires Linked(cells) && node < |cells|
      modifies this
      ensures Linked(cells) && Grows(old(cells), cells, Some(node))
      ensures ok ==> |cells| == |old(cells)| + 1 && cells[node].children == old(cells[node].children) + [|old(cells)|] &&
                     cells[|old(cells)|].children == [] && FieldFilled(cells, node, field, binding, |old(cells)|)
    {
      ok := GenChild(field.types, node);
      if !ok {
        return;
      }
      var child := |cells| - 1;
      ghost var between := cells;
      if field.name == binding {
        ok := Bind(node, cells[child].name);
        if !ok {
          return;
        }
      }
      GrowsOn(old(cells), between, cells, Some(node));
    }

    method GenField(fields: seq<Field>, binding: Token, node: nat, n: nat) returns (ok: bool)
      requires Linked(cells) && node < |cells| && n < |fields| && FieldsFilled(cells, node, fields, binding, n)
      modifies this
      ensures Linked(cells) && Grows(old(cells), cells, Some(node))
      ensures ok ==> FieldsFilled(cells, node, fields, binding, n + 1)
      ensures ok ==> |cells| == |old(cells)| + 1 && cells[node].children == old(cells[node].children) + [|old(cells)|] &&
                     cells[|old(cells)|].children == []
    {
      ok := GenBound(fields[n], binding, node);
      if !ok {
        return;
      }
      forall k | 0 <= k < n
        ensures FieldFilled(cells, node, fields[k], binding, cells[node].children[k])
      {
        FieldStays(old(cells), cells, Some(node), node, fields[k], binding, old(cells[node].children[k]));
      }
    }

    /** All nodes from `base` on are children of the node without children of their own. */
    ghost predicate Fresh(base: nat, node: nat)
      reads this
    {
      && base <= |cells| && node < base
      && (forall id :: base <= id < |cells| ==> cells[id].children == [])
      && |cells[node].children| == |cells| - base
      && forall k :: 0 <= k < |cells[node].children| ==> cells[node].children[k] == base + k
    }

    /** All nodes from `base` on have their shapes. */
    ghost predicate AllBuilt(base: nat)
      reads this
    {
      forall id :: base <= id < |cells| ==> Built(spec, cells, id)
    }

    /** Builds the children of a node. */
    method GenShape(node: nat) returns (ok: bool)
      requires Linked(cells) && node < |cells| && cells[node].children == []
      modifies this
      ensures Linked(cells) && Grows(old(cells), cells, Some(node))
      ensures ok ==> Built(spec, cells, node) && Fresh(|old(cells)|, node)
    {
      var token := cells[node].token;
      if token !in spec {
        return true;
      }
      match spec[token] {
        case Sequence(types, min, max) =>
          draws := draws + 1;
          ok := GenSequence(types, min, max, oracle.goOn(draws), node);
        case Fields(fields, binding) =>
          ok := GenFields(fields, binding, node);
      }
    }

    /** Builds the subtree of a node; `budget` bounds its depth, beyond which there is no success. */
    method GenNode(node: nat, budget: nat) returns (ok: bool)
      requires Linked(cells) && node < |cells| && cells[node].children == []
      modifies this
      ensures Linked(cells) && Grows(old(cells), cells, Some(node))
      ensures ok ==> Built(spec, cells, node) && AllBuilt(|old(cells)|)
      decreases budget
    {
      if budget == 0 {
        return false;
      }
      ok := GenShape(node);
      if !ok {
        return;
      }
      ghost var shaped := |cells|;
      var children := cells[node].children;
      for k := 0 to |children|
        invariant Linked(cells) && Grows(old(cells), cells, Some(node)) && shaped <= |cells|
        invariant Offspring(|old(cells)|, shaped, node, children, k)
      {
        ghost var before := cells;
        ok := GenNode(children[k], budget - 1);
        GrowsThrough(old(cells), before, cells, Some(node), children[k]);
        if !ok {
          return;
        }
        AllStay(spec, before, cells, children[k]);
      }
      return true;
    }

    /**
     * The node is built; of its children, those from `base` up to `end`, the
     * first `k` are built with all below them, and the others have no children yet.
     */
    ghost predicate Offspring(base: nat, end: nat, node: nat, children: seq<nat>, k: nat)
      reads this
    {
      && node < base && base + |children| == end <= |cells| && k <= |children|
      && (forall j :: 0 <= j < |children| ==> children[j] == base + j)
      && cells[node].children == children && Built(spec, cells, node)
      && (forall id :: base <= id < base + k ==> Built(spec, cells, id))
      && (forall id :: base + k <= id < end ==> cells[id].children == [])
      && AllBuilt(end)
    }
  }

  /** Nodes that are younger than all of `a` may change in between. */
  lemma {:induction false} GrowsThrough(a: Cells, b: Cells, c: Cells, open: Option<nat>, child: nat)
    requires Grows(a, b, open) && Grows(b, c, Some(child)) && |a| <= child
    ensures Grows(a, c, open)
  {
  }

  lemma {:induction false} AllStay(spec: Spec, cells: Cells, more: Cells, open: nat)
    requires Grows(cells, more, Some(open))
    ensures forall id :: 0 <= id < |cells| && id != open && Built(spec, cells, id) ==> Built(spec, more, id)
  {
    forall id | 0 <= id < |cells| && id != open && Built(spec, cells, id)
      ensures Built(spec, more, id)
    {
      BuiltStays(spec, cells, more, Some(open), id);
    }
  }

  // ---------------------------------------------------------------------
  // What is generated passes the check
  // ---------------------------------------------------------------------

  lemma {:induction false} FieldsPass(cells: Cells, id: nat, fields: seq<Field>, binding: Token, k: nat)
    requires Linked(cells) && id < |cells| && FieldsFilled(cells, id, fields, binding, |fields|) && k <= |fields|
    ensures FieldsFit(cells, id, fields, binding, k)
    decreases |fields| - k
  {
    if k < |fields| {
      assert FieldFilled(cells, id, fields[k], binding, cells[id].children[k]);
      FieldsPass(cells, id, fields, binding, k + 1);
    }
  }

  lemma {:induction false} ShapePasses(spec: Spec, cells: Cells, id: nat)
    requires Linked(cells) && Ordered(spec) && id < |cells| && Built(spec, cells, id) && cells[id].token in spec
    ensures ShapeFits(cells, id, spec[cells[id].token])
  {
    match spec[cells[id].token]
    case Sequence(types, min, max) =>
    case Fields(fields, binding) => FieldsPass(cells, id, fields, binding, 0);
  }

  /** A tree whose nodes were all built passes the check, whichever nodes are flagged. */
  lemma {:induction false} BuiltPasses(spec: Spec, cells: Cells, marked: nat -> bool, id: nat)
    requires Linked(cells) && Ordered(spec) && id < |cells| && forall i :: 0 <= i < |cells| ==> Built(spec, cells, i)
    ensures Check(spec, cells, marked, id)
    decreases |cells| - id
  {
    ChildrenPass(spec, cells, marked, id, 0);
    assert Built(spec, cells, id);
    if cells[id].token in spec {
      ShapePasses(spec, cells, id);
    }
    var children := cells[id].children;
    forall k | 0 <= k < |children|
      ensures children[k] < |cells| && cells[children[k]].parent == Some(id)
    {
      assert cells[id].children[k] == children[k];
    }
  }

  lemma {:induction false} ChildrenPass(spec: Spec, cells: Cells, marked: nat -> bool, id: nat, k: nat)
    requires Linked(cells) && Ordered(spec) && id < |cells| && k <= |cells[id].children|
    requires forall i :: 0 <= i < |cells| ==> Built(spec, cells, i)
    ensures ChildrenCheck(spec, cells, marked, id, k)
    decreases |cells| - id, -1, |cells[id].children| - k
  {
    if k < |cells[id].children| {
      BuiltPasses(spec, cells, marked, cells[id].children[k]);
      ChildrenPass(spec, cells, marked, id, k + 1);
    }
  }

  /** A node that was built for a sequence fits exactly if the bounds are in order or an Error is among its children. */
  lemma {:induction false} SequenceFitsIff(spec: Spec, cells: Cells, id: nat)
    requires Linked(cells) && id < |cells| && Built(spec, cells, id) && cells[id].token in spec && spec[cells[id].token].Sequence?
    ensures var shape := spec[cells[id].token];
            ShapeFits(cells, id, shape) <==> shape.min <= shape.max || HasError(cells, id)
  {
    var shape, children := spec[cells[id].token], cells[id].children;
    forall c | c in children
      ensures Accepts(cells, shape.types, c)
    {
      var k :| 0 <= k < |children| && children[k] == c;
      assert cells[cells[id].children[k]].token in shape.types;
    }
    assert ShapeFits(cells, id, shape) <==> HasError(cells, id) || shape.min <= |children| <= shape.max;
  }

  /**
   * Generates a tree. Whatever the random choices are, a tree that is
   * completed is well-formed, including the bindings in its symbol tables.
   */
  method Generate(spec: Spec, oracle: Oracle, top: Token, budget: nat) returns (cells: Cells, ok: bool)
    ensures ok ==> |cells| > 0 && cells[0].token == top && Linked(cells)
    ensures ok && Ordered(spec) ==> forall marked: nat -> bool :: Wellformed(spec, cells, marked, 0)
  {
    var g := new Gen(spec, oracle);
    g.cells := [Cell(top, 0, None, [], map[])];
    ok := g.GenNode(0, budget);
    cells := g.cells;
    if ok && Ordered(spec) {
      forall marked: nat -> bool
        ensures Wellformed(spec, cells, marked, 0)
      {
        BuiltPasses(spec, cells, marked, 0);
      }
    }
  }
}
