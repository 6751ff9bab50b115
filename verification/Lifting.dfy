// Lifting nodes out of place: lift in pass.h.

module Lifting {

  type Kind = nat

  /** The kind of nodes that carry a destination and a payload upwards. */
  const LIFT: Kind := 0

  /** A node; `marked` is the flag that says a Lift node lies below. */
  datatype Tree = Node(kind: Kind, id: nat, marked: bool, children: seq<Tree>)

  // ---------------------------------------------------------------------
  // What lifting relies on
  // ---------------------------------------------------------------------

  /** The mark is on every ancestor of a Lift node and of a marked node. */
  ghost predicate Closed(t: Tree)
  {
    forall k :: 0 <= k < |t.children| ==>
      (t.children[k].kind == LIFT || t.children[k].marked ==> t.marked) && Closed(t.children[k])
  }

  /** Every Lift node begins with a node of its destination kind, which is not Lift. */
  ghost predicate Addressed(t: Tree)
  {
    && (t.kind == LIFT ==> t.children != [] && t.children[0].kind != LIFT)
    && forall k :: 0 <= k < |t.children| ==> Addressed(t.children[k])
  }

  /** No Lift node lies below. */
  ghost predicate NoLift(t: Tree)
  {
    forall k :: 0 <= k < |t.children| ==> t.children[k].kind != LIFT && NoLift(t.children[k])
  }

  /** Marks lead to every Lift node below. */
  ghost predicate Found(t: Tree)
  {
    if t.marked then forall k :: 0 <= k < |t.children| ==> Found(t.children[k]) else NoLift(t)
  }

  /** A Lift node with a destination. */
  ghost predicate Liftable(l: Tree)
  {
    l.kind == LIFT && l.children != [] && l.children[0].kind != LIFT
  }

  // ---------------------------------------------------------------------
  // Where payloads go
  // ---------------------------------------------------------------------

  /** The payloads of the lifted nodes that are addressed to `kind`. */
  function Landing(ls: seq<Tree>, kind: Kind): seq<Tree>
  {
    if ls == [] then []
    else
      var l := ls[|ls| - 1];
      Landing(ls[..|ls| - 1], kind) + if l.children != [] && l.children[0].kind == kind then l.children[1..] else []
  }

  /** The lifted nodes that are not addressed to `kind`. */
  function Passing(ls: seq<Tree>, kind: Kind): seq<Tree>
  {
    if ls == [] then []
    else
      var l := ls[|ls| - 1];
      Passing(ls[..|ls| - 1], kind) + if l.children != [] && l.children[0].kind == kind then [] else [l]
  }

  /** What leaves a child: the child itself if it is a Lift node, then what escapes from within. */
  ghost function Leaving(c: Tree): seq<Tree>
    decreases c, 2
  {
    (if c.kind == LIFT then [Cleaned(c)] else []) + Escaping(c)
  }

  /** What escapes from within; unmarked nodes are not entered. */
  ghost function Escaping(t: Tree): seq<Tree>
    decreases t, 1
  {
    if t.marked then Escapes(t, |t.children|) else []
  }

  /** What of the first `n` children finds no destination in `t`. */
  ghost function Escapes(t: Tree, n: nat): seq<Tree>
    requires n <= |t.children|
    decreases t, 0, n
  {
    if n == 0 then [] else Escapes(t, n - 1) + Passing(Leaving(t.children[n - 1]), t.kind)
  }

  /** What the first `n` children become: payloads land before the child they come from, Lift nodes vanish. */
  ghost function Settled(t: Tree, n: nat): seq<Tree>
    requires n <= |t.children|
    decreases t, 0, n
  {
    if n == 0 then []
    else
      var c := t.children[n - 1];
      Settled(t, n - 1) + Landing(Leaving(c), t.kind) + if c.kind == LIFT then [] else [Cleaned(c)]
  }

  ghost function Cleaned(t: Tree): Tree
    decreases t, 1
  {
    if t.marked then Node(t.kind, t.id, false, Settled(t, |t.children|)) else t
  }

  lemma SnocLanding(ls: seq<Tree>, l: Tree, kind: Kind)
    ensures Landing(ls + [l], kind) == Landing(ls, kind) + if l.children != [] && l.children[0].kind == kind then l.children[1..] else []
    ensures Passing(ls + [l], kind) == Passing(ls, kind) + if l.children != [] && l.children[0].kind == kind then [] else [l]
  {
    assert (ls + [l])[..|ls|] == ls;
  }

  // ---------------------------------------------------------------------
  // Every payload has a destination
  // ---------------------------------------------------------------------

  ghost predicate AllLiftable(ls: seq<Tree>)
  {
    forall k :: 0 <= k < |ls| ==> Liftable(ls[k])
  }

  lemma {:induction false} PassingLiftable(ls: seq<Tree>, kind: Kind)
    requires AllLiftable(ls)
    ensures AllLiftable(Passing(ls, kind))
    ensures kind == LIFT ==> Landing(ls, kind) == []
    decreases |ls|
  {
    if ls != [] {
      PassingLiftable(ls[..|ls| - 1], kind);
      assert Liftable(ls[|ls| - 1]);
    }
  }

  lemma {:induction false} LeavingLiftable(c: Tree)
    requires Addressed(c)
    ensures AllLiftable(Leaving(c)) && AllLiftable(Escaping(c)) && !Cleaned(c).marked
    decreases c, |c.children| + 1
  {
    SettledLiftable(c, |c.children|);
  }

  lemma {:induction false} SettledLiftable(t: Tree, n: nat)
    requires Addressed(t) && n <= |t.children|
    ensures AllLiftable(Escapes(t, n))
    ensures t.kind == LIFT && n > 0 ==> Settled(t, n) != [] && Settled(t, n)[0] == Cleaned(t.children[0])
    decreases t, n
  {
    if n > 0 {
      var c := t.children[n - 1];
      SettledLiftable(t, n - 1);
      LeavingLiftable(c);
      PassingLiftable(Leaving(c), t.kind);
    }
  }

  lemma {:induction false} PassingElsewhere(ls: seq<Tree>, kind: Kind)
    requires AllLiftable(ls)
    ensures AllLiftable(Passing(ls, kind))
    ensures forall k :: 0 <= k < |Passing(ls, kind)| ==> Passing(ls, kind)[k].children[0].kind != kind
    decreases |ls|
  {
    PassingLiftable(ls, kind);
    if ls != [] {
      assert Liftable(ls[|ls| - 1]);
      PassingLiftable(ls[..|ls| - 1], kind);
      PassingElsewhere(ls[..|ls| - 1], kind);
    }
  }

  /** What escapes from a node is addressed to other kinds, so a payload stops at the first ancestor it is meant for. */
  lemma {:induction false} EscapesElsewhere(t: Tree, n: nat)
    requires Addressed(t) && n <= |t.children|
    ensures AllLiftable(Escapes(t, n))
    ensures forall k :: 0 <= k < |Escapes(t, n)| ==> Escapes(t, n)[k].children[0].kind != t.kind
    decreases n
  {
    SettledLiftable(t, n);
    if n > 0 {
      var c := t.children[n - 1];
      SettledLiftable(t, n - 1);
      EscapesElsewhere(t, n - 1);
      LeavingLiftable(c);
      PassingElsewhere(Leaving(c), t.kind);
    }
  }

  // ---------------------------------------------------------------------
  // Which Lift nodes are left
  // ---------------------------------------------------------------------

  /** No Lift node is among the trees or below them. */
  ghost predicate Clean(ts: seq<Tree>)
  {
    forall k :: 0 <= k < |ts| ==> ts[k].kind != LIFT && NoLift(ts[k])
  }

  /** No Lift node is below the trees. */
  ghost predicate Pure(ls: seq<Tree>)
  {
    forall k :: 0 <= k < |ls| ==> NoLift(ls[k])
  }

  /** Payloads whose destination markers are bare tokens. */
  ghost predicate AllMarked(ls: seq<Tree>)
  {
    forall k :: 0 <= k < |ls| ==> Liftable(ls[k]) && ls[k].children[0].children == []
  }

  ghost predicate FoundUpTo(t: Tree, n: nat)
    requires n <= |t.children|
  {
    forall k :: 0 <= k < n ==> Found(t.children[k])
  }

  lemma FoundSnoc(t: Tree, n: nat)
    requires 0 < n <= |t.children|
    ensures FoundUpTo(t, n) <==> FoundUpTo(t, n - 1) && Found(t.children[n - 1])
  {
    if FoundUpTo(t, n - 1) && Found(t.children[n - 1]) {
      forall k | 0 <= k < n
        ensures Found(t.children[k])
      {
        assert k < n - 1 || k == n - 1;
      }
    }
  }

  lemma MarkedConcat(a: seq<Tree>, b: seq<Tree>)
    requires AllMarked(a) && AllMarked(b)
    ensures AllMarked(a + b)
  {
  }

  lemma CleanConcat(a: seq<Tree>, b: seq<Tree>)
    ensures Clean(a + b) <==> Clean(a) && Clean(b)
    ensures Pure(a + b) <==> Pure(a) && Pure(b)
  {
    forall k | 0 <= k < |a|
      ensures (a + b)[k] == a[k]
    {
    }
    forall k | 0 <= k < |b|
      ensures (a + b)[|a| + k] == b[k]
    {
    }
  }

  lemma PayloadClean(l: Tree)
    requires Liftable(l) && l.children[0].children == []
    ensures NoLift(l) <==> Clean(l.children[1..])
  {
    var first, rest := l.children[0], l.children[1..];
    assert l.children == [first] + rest;
    assert NoLift(l) <==> Clean(l.children);
    CleanConcat([first], rest);
    assert NoLift(first);
  }

  lemma {:induction false} LandingClean(ls: seq<Tree>, kind: Kind)
    requires AllMarked(ls)
    ensures Pure(ls) <==> Clean(Landing(ls, kind)) && Pure(Passing(ls, kind))
    ensures AllMarked(Passing(ls, kind))
    decreases |ls|
  {
    if ls != [] {
      var front, l := ls[..|ls| - 1], ls[|ls| - 1];
      assert ls == front + [l];
      LandingClean(front, kind);
      PayloadClean(l);
      CleanConcat(front, [l]);
      OneClean(l);
      var lands := l.children[0].kind == kind;
      CleanConcat(Landing(front, kind), if lands then l.children[1..] else []);
      CleanConcat(Passing(front, kind), if lands then [] else [l]);
    }
  }

  lemma {:induction false} ChildClean(c: Tree)
    requires Addressed(c) && Bare(c)
    ensures AllMarked(Leaving(c)) && AllMarked(Escaping(c))
    ensures Found(c) <==> NoLift(Cleaned(c)) && Pure(Escaping(c))
    decreases c, |c.children| + 1
  {
    LeavingLiftable(c);
    SettledLiftable(c, |c.children|);
    SettledClean(c, |c.children|);
    if c.marked {
      assert NoLift(Cleaned(c)) <==> Clean(Settled(c, |c.children|));
      if c.kind == LIFT {
        assert c.children[0].children == [];
        assert Settled(c.children[0], 0) == [];
      }
    }
  }

  /** The first `n` children are free of Lift nodes, and so is what leaves them, exactly if marks lead to all of theirs. */
  lemma {:induction false} SettledClean(t: Tree, n: nat)
    requires Addressed(t) && Bare(t) && n <= |t.children|
    ensures AllMarked(Escapes(t, n))
    ensures Clean(Settled(t, n)) && Pure(Escapes(t, n)) <==> FoundUpTo(t, n)
    decreases t, n
  {
    if n > 0 {
      var c := t.children[n - 1];
      SettledClean(t, n - 1);
      ChildClean(c);
      LandingClean(Leaving(c), t.kind);
      StepClean(t, n, c);
      MarkedConcat(Escapes(t, n - 1), Passing(Leaving(c), t.kind));
      FoundSnoc(t, n);
    }
  }

  lemma {:induction false} StepClean(t: Tree, n: nat, c: Tree)
    requires 0 < n <= |t.children| && c == t.children[n - 1]
    requires Found(c) <==> NoLift(Cleaned(c)) && Pure(Escaping(c))
    requires Pure(Leaving(c)) <==> Clean(Landing(Leaving(c), t.kind)) && Pure(Passing(Leaving(c), t.kind))
    ensures Clean(Settled(t, n)) && Pure(Escapes(t, n)) <==> Clean(Settled(t, n - 1)) && Pure(Escapes(t, n - 1)) && Found(c)
  {
    var landing, passing := Landing(Leaving(c), t.kind), Passing(Leaving(c), t.kind);
    var stays: seq<Tree> := if c.kind == LIFT then [] else [Cleaned(c)];
    CleanConcat(Settled(t, n - 1) + landing, stays);
    CleanConcat(Settled(t, n - 1), landing);
    CleanConcat(Escapes(t, n - 1), passing);
    LeavingClean(c);
  }

  lemma OneClean(t: Tree)
    ensures Clean([t]) <==> t.kind != LIFT && NoLift(t)
    ensures Pure([t]) <==> NoLift(t)
  {
    var ts := [t];
    assert ts[0] == t;
    assert Clean(ts) ==> ts[0].kind != LIFT && NoLift(ts[0]);
    assert Pure(ts) ==> NoLift(ts[0]);
  }

  lemma {:induction false} LeavingClean(c: Tree)
    ensures Pure(Leaving(c)) && Clean(if c.kind == LIFT then [] else [Cleaned(c)]) <==> NoLift(Cleaned(c)) && Pure(Escaping(c))
  {
    CleanConcat(if c.kind == LIFT then [Cleaned(c)] else [], Escaping(c));
    OneClean(Cleaned(c));
  }

  /** Lifting leaves no Lift node behind, in the tree or inside what escapes, exactly if marks lead to all of them. */
  lemma {:induction false} LiftsAllIff(t: Tree)
    requires Addressed(t) && Bare(t)
    ensures NoLift(Cleaned(t)) && Pure(Escaping(t)) <==> Found(t)
  {
    ChildClean(t);
  }

  /** Complete marks lead to all Lift nodes. */
  lemma {:induction false} ClosedFound(t: Tree)
    requires Closed(t)
    ensures Found(t) && (!t.marked ==> NoLift(t))
  {
    forall k | 0 <= k < |t.children|
      ensures Found(t.children[k]) && (!t.children[k].marked ==> NoLift(t.children[k]))
    {
      ClosedFound(t.children[k]);
    }
  }

  /** One mark is missing: the Lift node below the unmarked one stays where it is, although it is addressed to the root. */
  lemma MissingMarkStays(top: Kind, middle: Kind)
    requires top != LIFT && middle != LIFT
    ensures var payload := Node(LIFT, 2, false, [Node(top, 3, false, [])]);
            var t := Node(top, 0, true, [Node(middle, 1, false, [payload])]);
            Addressed(t) && Bare(t) && !Closed(t) && Cleaned(t) == t.(marked := false) && Escaping(t) == []
  {
    var marker := Node(top, 3, false, []);
    var payload := Node(LIFT, 2, false, [marker]);
    var inner := Node(middle, 1, false, [payload]);
    var t := Node(top, 0, true, [inner]);
    assert Addressed(marker) && Bare(marker) && Addressed(payload) && Bare(payload) && Addressed(inner) && Bare(inner);
    assert inner.children[0].kind == LIFT && !inner.marked && !Closed(inner);
    assert t.children[0] == inner;
    OneUnmarked(t, inner);
  }

  lemma OneUnmarked(t: Tree, c: Tree)
    requires t.children == [c] && !c.marked && c.kind != LIFT
    ensures Settled(t, 1) == [c] && Escapes(t, 1) == []
  {
    assert Leaving(c) == [] && Cleaned(c) == c && Landing([], t.kind) == [] && Passing([], t.kind) == [];
    assert Settled(t, 0) == [] && Escapes(t, 0) == [];
  }

  // ---------------------------------------------------------------------
  // Nothing is lost
  // ---------------------------------------------------------------------

  /** Destination markers are bare tokens. */
  ghost predicate Bare(t: Tree)
  {
    && (t.kind == LIFT ==> t.children != [] && t.children[0].children == [])
    && forall k :: 0 <= k < |t.children| ==> Bare(t.children[k])
  }

  /** How often the node `id` occurs in a tree, Lift nodes and their destination markers aside. */
  ghost function Count(t: Tree, id: nat): nat
    decreases t, |t.children| + 1, id
  {
    (if t.kind != LIFT && t.id == id then 1 else 0) + CountUpTo(t, |t.children|, id)
  }

  ghost function CountUpTo(t: Tree, n: nat, id: nat): nat
    requires n <= |t.children|
    decreases t, n, id
  {
    if n == 0 then 0
    else CountUpTo(t, n - 1, id) + if t.kind == LIFT && n == 1 then 0 else Count(t.children[n - 1], id)
  }

  ghost function Sum(ts: seq<Tree>, id: nat): nat
  {
    if ts == [] then 0 else Sum(ts[..|ts| - 1], id) + Count(ts[|ts| - 1], id)
  }

  lemma {:induction false} SumConcat(a: seq<Tree>, b: seq<Tree>, id: nat)
    ensures Sum(a + b, id) == Sum(a, id) + Sum(b, id)
    decreases |b|
  {
    if b == [] {
      assert a + b == a;
    } else {
      assert (a + b)[..|a + b| - 1] == a + b[..|b| - 1];
      SumConcat(a, b[..|b| - 1], id);
    }
  }

  lemma SumOne(t: Tree, id: nat)
    ensures Sum([t], id) == Count(t, id)
  {
    assert [t][..0] == [];
  }

  /** The children that count: all of them, but not a Lift node's marker. */
  function Counted(kind: Kind, children: seq<Tree>): seq<Tree>
  {
    if kind == LIFT && children != [] then children[1..] else children
  }

  lemma CountedSnoc(kind: Kind, front: seq<Tree>, t: Tree)
    ensures Counted(kind, front + [t]) == if kind == LIFT && front == [] then [] else Counted(kind, front) + [t]
  {
  }

  lemma SumSnoc(front: seq<Tree>, t: Tree, id: nat)
    ensures Sum(front + [t], id) == Sum(front, id) + Count(t, id)
  {
    assert (front + [t])[..|front|] == front;
  }

  lemma {:induction false} CountIsSum(t: Tree, n: nat, id: nat)
    requires n <= |t.children|
    ensures CountUpTo(t, n, id) == Sum(Counted(t.kind, t.children[..n]), id)
    decreases n
  {
    if n > 0 {
      var front, c := t.children[..n - 1], t.children[n - 1];
      CountIsSum(t, n - 1, id);
      assert t.children[..n] == front + [c];
      CountedSnoc(t.kind, front, c);
      SumSnoc(Counted(t.kind, front), c, id);
    }
  }

  lemma CountAll(t: Tree, id: nat)
    ensures Count(t, id) == (if t.kind != LIFT && t.id == id then 1 else 0) + Sum(Counted(t.kind, t.children), id)
  {
    CountIsSum(t, |t.children|, id);
    assert t.children[..|t.children|] == t.children;
  }

  /** Landing and passing divide what has been lifted. */
  lemma {:induction false} LandingDivides(ls: seq<Tree>, kind: Kind, id: nat)
    requires AllLiftable(ls)
    ensures Sum(ls, id) == Sum(Landing(ls, kind), id) + Sum(Passing(ls, kind), id)
    decreases |ls|
  {
    if ls != [] {
      var front, l := ls[..|ls| - 1], ls[|ls| - 1];
      assert Liftable(l);
      LandingDivides(front, kind, id);
      CountAll(l, id);
      var lands := l.children[0].kind == kind;
      SumOne(l, id);
      SumConcat(Landing(front, kind), if lands then l.children[1..] else [], id);
      SumConcat(Passing(front, kind), if lands then [] else [l], id);
    }
  }

  lemma {:induction false} ChildConserved(c: Tree, id: nat)
    requires Addressed(c) && Bare(c)
    ensures Count(c, id) == Sum(Leaving(c), id) + if c.kind == LIFT then 0 else Count(Cleaned(c), id)
    decreases c, |c.children| + 1
  {
    UpToConserved(c, |c.children|, id);
    CountAll(Cleaned(c), id);
    LeavingCount(c, id);
  }

  lemma LeavingCount(c: Tree, id: nat)
    ensures Sum(Leaving(c), id) == (if c.kind == LIFT then Count(Cleaned(c), id) else 0) + Sum(Escaping(c), id)
  {
    var escapes := Escaping(c);
    if c.kind == LIFT {
      SumOne(Cleaned(c), id);
      SumConcat([Cleaned(c)], escapes, id);
    } else {
      assert [] + escapes == escapes;
    }
  }

  lemma {:induction false} SettledCounted(t: Tree, n: nat, id: nat)
    requires n < |t.children| && !(t.kind == LIFT && n == 0)
    requires t.kind == LIFT ==> Settled(t, n) != []
    ensures var c := t.children[n];
            Sum(Counted(t.kind, Settled(t, n + 1)), id) ==
            Sum(Counted(t.kind, Settled(t, n)), id) + Sum(Landing(Leaving(c), t.kind), id) + if c.kind == LIFT then 0 else Count(Cleaned(c), id)
  {
    var c := t.children[n];
    var landing := Landing(Leaving(c), t.kind);
    var stays: seq<Tree> := if c.kind == LIFT then [] else [Cleaned(c)];
    assert Counted(t.kind, Settled(t, n + 1)) == Counted(t.kind, Settled(t, n)) + (landing + stays);
    SumConcat(Counted(t.kind, Settled(t, n)), landing + stays, id);
    SumConcat(landing, stays, id);
    SumOne(Cleaned(c), id);
  }

  /** Nothing leaves a bare marker. */
  lemma MarkerConserved(t: Tree, id: nat)
    requires Addressed(t) && Bare(t) && t.kind == LIFT
    ensures CountUpTo(t, 1, id) == 0 && Sum(Counted(t.kind, Settled(t, 1)), id) == 0 && Sum(Escapes(t, 1), id) == 0
  {
    var c := t.children[0];
    assert c.children == [] && Escapes(c, 0) == [] && Escaping(c) == [];
    assert Leaving(c) == [];
    assert Settled(t, 0) == [] && Settled(t, 1) == [Cleaned(c)];
    assert Counted(t.kind, Settled(t, 1)) == [];
    assert Escapes(t, 0) == [] && Escapes(t, 1) == [];
    assert CountUpTo(t, 0, id) == 0;
  }

  /** What the next child adds on either side. */
  lemma {:induction false} StepEscapes(t: Tree, n: nat, id: nat)
    requires Addressed(t) && 0 < n <= |t.children|
    ensures var leaving := Leaving(t.children[n - 1]);
            Sum(Escapes(t, n), id) + Sum(Landing(leaving, t.kind), id) == Sum(Escapes(t, n - 1), id) + Sum(leaving, id)
  {
    var leaving := Leaving(t.children[n - 1]);
    LeavingLiftable(t.children[n - 1]);
    LandingDivides(leaving, t.kind, id);
    SumConcat(Escapes(t, n - 1), Passing(leaving, t.kind), id);
  }

  lemma {:induction false} StepSettled(t: Tree, n: nat, id: nat)
    requires Addressed(t) && 0 < n <= |t.children| && !(t.kind == LIFT && n == 1)
    ensures var c := t.children[n - 1];
            Sum(Counted(t.kind, Settled(t, n)), id) ==
            Sum(Counted(t.kind, Settled(t, n - 1)), id) + Sum(Landing(Leaving(c), t.kind), id) + if c.kind == LIFT then 0 else Count(Cleaned(c), id)
  {
    SettledLiftable(t, n - 1);
    SettledCounted(t, n - 1, id);
  }

  /** The balance after one more child. */
  lemma Balance(count: int, counted: int, settled: int, escaped: int, landing: int, leaving: int, kept: int, settled': int, escaped': int)
    requires count == settled + escaped && counted == leaving + kept
    requires escaped' + landing == escaped + leaving && settled' == settled + landing + kept
    ensures count + counted == settled' + escaped'
  {
  }

  lemma {:induction false} StepConserved(t: Tree, n: nat, id: nat, c: Tree)
    requires Addressed(t) && Bare(t) && 0 < n <= |t.children| && !(t.kind == LIFT && n == 1) && c == t.children[n - 1]
    requires CountUpTo(t, n - 1, id) == Sum(Counted(t.kind, Settled(t, n - 1)), id) + Sum(Escapes(t, n - 1), id)
    requires Count(c, id) == Sum(Leaving(c), id) + if c.kind == LIFT then 0 else Count(Cleaned(c), id)
    ensures CountUpTo(t, n - 1, id) + Count(c, id) == Sum(Counted(t.kind, Settled(t, n)), id) + Sum(Escapes(t, n), id)
  {
    StepEscapes(t, n, id);
    StepSettled(t, n, id);
    Balance(CountUpTo(t, n - 1, id), Count(c, id), Sum(Counted(t.kind, Settled(t, n - 1)), id), Sum(Escapes(t, n - 1), id),
            Sum(Landing(Leaving(c), t.kind), id), Sum(Leaving(c), id), if c.kind == LIFT then 0 else Count(Cleaned(c), id),
            Sum(Counted(t.kind, Settled(t, n)), id), Sum(Escapes(t, n), id));
  }

  lemma {:induction false} UpToConserved(t: Tree, n: nat, id: nat)
    requires Addressed(t) && Bare(t) && n <= |t.children|
    ensures CountUpTo(t, n, id) == Sum(Counted(t.kind, Settled(t, n)), id) + Sum(Escapes(t, n), id)
    decreases t, n
  {
    if t.kind == LIFT && n == 1 {
      MarkerConserved(t, id);
    } else if n > 0 {
      var c := t.children[n - 1];
      UpToConserved(t, n - 1, id);
      ChildConserved(c, id);
      StepConserved(t, n, id, c);
    }
  }

  /** Lifting moves nodes but loses and adds none: they stay in the tree or leave with what escapes. */
  lemma LiftConserves(t: Tree, id: nat)
    requires Addressed(t) && Bare(t) && t.kind != LIFT
    ensures Count(t, id) == Count(Cleaned(t), id) + Sum(Escaping(t), id)
  {
    ChildConserved(t, id);
    assert [] + Escaping(t) == Escaping(t);
  }

  // ---------------------------------------------------------------------
  // Lift
  // ---------------------------------------------------------------------

  lemma Splice(front: seq<Tree>, more: seq<Tree>, back: seq<Tree>)
    ensures (front + back)[..|front|] == front && (front + back)[|front|..] == back
    ensures front + more + back == (front + more) + back
  {
  }

  /** Places lifted nodes at position `it` of the children or passes them on. */
  method Place(kind: Kind, children: seq<Tree>, it: nat, lifted: seq<Tree>, uplift: seq<Tree>)
    returns (children': seq<Tree>, it': nat, uplift': seq<Tree>, landed: bool)
    requires it <= |children| && forall l :: l in lifted ==> l.children != []
    ensures children' == children[..it] + Landing(lifted, kind) + children[it..]
    ensures it' == it + |Landing(lifted, kind)|
    ensures uplift' == uplift + Passing(lifted, kind)
    ensures lifted == [] ==> !landed
  {
    children', it', uplift', landed := children, it, uplift, false;
    ghost var front, back := children[..it], children[it..];
    assert front + [] + back == children;
    for j := 0 to |lifted|
      invariant it' == |front + Landing(lifted[..j], kind)|
      invariant children' == (front + Landing(lifted[..j], kind)) + back
      invariant uplift' == uplift + Passing(lifted[..j], kind)
      invariant landed ==> j > 0
    {
      var l := lifted[j];
      assert l in lifted;
      assert lifted[..j + 1] == lifted[..j] + [l];
      SnocLanding(lifted[..j], l, kind);
      if l.children[0].kind == kind {
        Splice(front + Landing(lifted[..j], kind), l.children[1..], back);
        assert (front + Landing(lifted[..j], kind)) + l.children[1..] == front + Landing(lifted[..j + 1], kind);
        children' := children'[..it'] + l.children[1..] + children'[it'..];
        it' := it' + |l.children| - 1;
        landed := true;
      } else {
        uplift' := uplift' + [l];
      }
    }
    assert lifted[..|lifted|] == lifted;
  }

  /** Deals with child `it`, already lifted out of: a Lift node is erased, and what leaves the child is placed. */
  method VisitChild(kind: Kind, children: seq<Tree>, it: nat, c: Tree, lifted: seq<Tree>, uplift: seq<Tree>)
    returns (children': seq<Tree>, it': nat, uplift': seq<Tree>)
    requires it < |children| && (forall l :: l in lifted ==> l.children != []) && (c.kind == LIFT ==> c.children != [])
    ensures var leaving := (if c.kind == LIFT then [c] else []) + lifted;
            var landing := Landing(leaving, kind);
            && uplift' == uplift + Passing(leaving, kind)
            && children' == children[..it] + landing + (if c.kind == LIFT then [] else [c]) + children[it + 1..]
            && it' >= it + |landing|
            && (if c.kind == LIFT then it' == it + |landing| else it' <= it + |landing| + 1)
            && (c.kind != LIFT && lifted == [] ==> it' == it + 1)
  {
    var advance, leaving, landed := true, lifted, false;
    if c.kind == LIFT {
      leaving := [c] + lifted;
      children' := children[..it] + children[it + 1..];
      advance := false;
      assert children'[..it] == children[..it] && children'[it..] == children[it + 1..];
    } else {
      children' := children[it := c];
      assert [] + lifted == lifted;
      assert children'[..it] == children[..it] && children'[it..] == [c] + children[it + 1..];
    }
    ghost var landing := Landing(leaving, kind);
    ghost var before := children';
    children', it', uplift', landed := Place(kind, children', it, leaving, uplift);
    assert before[..it] + landing + before[it..] ==
           children[..it] + landing + (if c.kind == LIFT then [] else [c]) + children[it + 1..];
    if advance && !landed {
      it' := it' + 1;
    }
  }

  /** The first `n` children are done; the position is past them, or at the last of them if something landed before it. */
  ghost predicate Progress(t: Tree, n: nat, children: seq<Tree>, it: nat, uplift: seq<Tree>)
    requires n <= |t.children|
  {
    && children == Settled(t, n) + t.children[n..]
    && (it == |Settled(t, n)| || (it == |Settled(t, n)| - 1 && !children[it].marked && children[it].kind != LIFT))
    && uplift == Escapes(t, n)
  }

  /** After a child has been dealt with, one more child is done. */
  lemma NextChild(t: Tree, n: nat, before: seq<Tree>, at: nat, before': seq<Tree>, children: seq<Tree>, it: nat, uplift: seq<Tree>)
    requires n < |t.children| && Progress(t, n, before, at, before') && at == |Settled(t, n)| && Addressed(t.children[n])
    requires var c := t.children[n];
             var landing := Landing(Leaving(c), t.kind);
             && children == before[..at] + landing + (if c.kind == LIFT then [] else [Cleaned(c)]) + before[at + 1..]
             && at + |landing| <= it <= at + |landing| + (if c.kind == LIFT then 0 else 1)
             && uplift == before' + Passing(Leaving(c), t.kind)
    ensures Progress(t, n + 1, children, it, uplift)
  {
    assert before[..at] == Settled(t, n) && before[at + 1..] == t.children[n + 1..];
    var c := t.children[n];
    assert it < |Settled(t, n + 1)| ==> children[it] == Cleaned(c);
  }

  /** What stands at the position: the next child, or the last one again with nothing to lift. */
  lemma ChildAt(t: Tree, n: nat, children: seq<Tree>, it: nat, uplift: seq<Tree>)
    requires n <= |t.children| && Progress(t, n, children, it, uplift) && it < |children| && Addressed(t)
    ensures if it == |Settled(t, n)| then n < |t.children| && children[it] == t.children[n] && Addressed(children[it])
            else !children[it].marked && children[it].kind != LIFT
  {
  }

  lemma AllDone(t: Tree, n: nat, children: seq<Tree>, it: nat, uplift: seq<Tree>)
    requires n <= |t.children| && Progress(t, n, children, it, uplift) && it >= |children|
    ensures children == Settled(t, |t.children|) && uplift == Escapes(t, |t.children|)
  {
    assert |children| == |Settled(t, n)| + |t.children[n..]|;
    assert n == |t.children| && t.children[n..] == [];
  }

  /** A child visited again is passed over. */
  lemma SameChild(t: Tree, n: nat, children: seq<Tree>, it: nat, uplift: seq<Tree>, children': seq<Tree>, it': nat, uplift': seq<Tree>)
    requires n <= |t.children| && Progress(t, n, children, it, uplift) && it != |Settled(t, n)|
    requires children' == children[..it] + Landing([] + [], t.kind) + [children[it]] + children[it + 1..]
    requires it' == it + 1 && uplift' == uplift + Passing([] + [], t.kind)
    ensures Progress(t, n, children', it', uplift') && children' == children
  {
  }

  /** What lifting out of the next child gives, whether it is marked or not. */
  lemma ChildLifted(t: Tree, n: nat, c: Tree, c': Tree, lifted: seq<Tree>)
    requires n < |t.children| && c == t.children[n] && Addressed(c)
    requires if c.marked then c' == Cleaned(c) && lifted == Escaping(c) else c' == c && lifted == []
    ensures c' == Cleaned(c) && Leaving(c) == (if c'.kind == LIFT then [c'] else []) + lifted
    ensures !c'.marked && AllLiftable(Leaving(c))
    ensures forall l :: l in lifted ==> l.children != []
    ensures c'.kind == LIFT ==> c'.children != []
  {
    LeavingLiftable(c);
    forall l | l in lifted
      ensures l.children != []
    {
      assert l in Leaving(c);
      var k :| 0 <= k < |Leaving(c)| && Leaving(c)[k] == l;
      assert Liftable(Leaving(c)[k]);
    }
    if c'.kind == LIFT {
      assert Liftable(Leaving(c)[0]);
    }
  }

  /** One round of the loop over the children. */
  method VisitNext(node: Tree, children: seq<Tree>, it: nat, uplift: seq<Tree>, ghost n: nat)
    returns (children': seq<Tree>, it': nat, uplift': seq<Tree>, ghost n': nat)
    requires node.marked && Addressed(node) && n <= |node.children| && it < |children|
    requires Progress(node, n, children, it, uplift)
    ensures n <= n' <= |node.children| && Progress(node, n', children', it', uplift')
    ensures n' == n ==> it' == it + 1 && |children'| == |children|
    decreases node, 0
  {
    var c, lifted: seq<Tree> := children[it], [];
    ChildAt(node, n, children, it, uplift);
    if c.marked {
      c, lifted := Lift(c);
    }
    if it == |Settled(node, n)| {
      ChildLifted(node, n, children[it], c, lifted);
    }
    children', it', uplift' := VisitChild(node.kind, children, it, c, lifted, uplift);
    n' := n;
    if it == |Settled(node, n)| {
      NextChild(node, n, children, it, uplift, children', it', uplift');
      n' := n + 1;
    } else {
      SameChild(node, n, children, it, uplift, children', it', uplift');
    }
  }

  /**
   * Lifts out of a node. Payloads addressed to it are spliced into its
   * children, before the child they come from or where their Lift node stood;
   * the others are returned.
   */
  method Lift(node: Tree) returns (node': Tree, uplift: seq<Tree>)
    requires Addressed(node)
    ensures node' == Cleaned(node) && uplift == Escaping(node)
    ensures AllLiftable(uplift) && forall k :: 0 <= k < |uplift| ==> uplift[k].children[0].kind != node.kind
    decreases node, 1
  {
    LeavingLiftable(node);
    EscapesElsewhere(node, |node.children|);
    if !node.marked {
      return node, [];
    }
    var children, it: nat := node.children, 0;
    uplift := [];
    ghost var n := 0;
    while it < |children|
      invariant n <= |node.children| && Progress(node, n, children, it, uplift)
      decreases |node.children| - n, |children| - it
    {
      children, it, uplift, n := VisitNext(node, children, it, uplift, n);
    }
    AllDone(node, n, children, it, uplift);
    return Node(node.kind, node.id, false, children), uplift;
  }
}
