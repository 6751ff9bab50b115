// Captures hidden in actions: HasCaptures (has_captures_local in rewrite.h)
// does not look inside an Action. Where that matters, and that nothing
// weaker than Honest keeps frames and environments together there.

module HiddenCaptures {
  import opened TreePatterns
  import opened MatchFrames

  // ---------------------------------------------------------------------
  // Straight-line patterns
  // ---------------------------------------------------------------------

  /** Parts for one node that look at nothing else. */
  predicate IsLeaf(s: Shape)
  {
    s.Anything? || s.RegexMatch? || (s.TokenMatch? && s.types != [])
  }

  lemma LeafBinds(c: Chain)
    requires c.End? && IsLeaf(c.shape)
    ensures !Binds(c) && !HasCaptures(c) && Legal(c) && Honest(c)
  {
    assert !ShapeBinds(c.shape) && !ShapeHasCaptures(c.shape) && ShapeLegal(c.shape) && ShapeHonest(c.shape);
  }

  function LeafKind(s: Shape): Kind
    requires IsLeaf(s)
  {
    match s
    case TokenMatch(types) => types[0]
    case RegexMatch(t, _) => t
    case _ => 0
  }

  /** Nodes, also with a pattern for their children, captures and actions in sequence: such a pattern matches its own sample. */
  predicate ShapePlain(s: Shape)
  {
    match s
    case Cap(_, c) => Plain(c)
    case Action(c, _) => Plain(c)
    case Children(a, b) => a.End? && IsLeaf(a.shape) && Plain(b)
    case _ => IsLeaf(s)
  }

  predicate Plain(c: Chain)
  {
    ShapePlain(c.shape) && (c.Link? ==> Plain(c.next))
  }

  function ShapeSample(s: Shape): seq<Tree>
    requires ShapePlain(s)
  {
    match s
    case Cap(_, c) => Sample(c)
    case Action(c, _) => Sample(c)
    case Children(a, b) => [Node(LeafKind(a.shape), "", Sample(b))]
    case _ => [Node(LeafKind(s), "", [])]
  }

  function Sample(c: Chain): seq<Tree>
    requires Plain(c)
  {
    ShapeSample(c.shape) + if c.Link? then Sample(c.next) else []
  }

  lemma {:induction false} ShapeSampleNonempty(s: Shape)
    requires ShapePlain(s)
    ensures ShapeSample(s) != []
    decreases s
  {
    match s
    case Cap(_, c) => ShapeSampleNonempty(c.shape);
    case Action(c, _) => ShapeSampleNonempty(c.shape);
    case _ =>
  }

  lemma {:induction false} PlainLegal(c: Chain)
    requires Plain(c)
    ensures Legal(c) && Honest(c)
    decreases c, 1
  {
    ShapePlainLegal(c.shape);
    if c.Link? {
      PlainLegal(c.next);
    }
  }

  lemma {:induction false} ShapePlainLegal(s: Shape)
    requires ShapePlain(s)
    ensures ShapeLegal(s) && ShapeHonest(s) && !s.Last?
    decreases s, 0
  {
    match s
    case Cap(_, c) => PlainLegal(c);
    case Action(c, _) => PlainLegal(c);
    case Children(a, b) =>
      LeafBinds(a);
      PlainLegal(b);
    case _ =>
  }

  /** The actions of a straight-line pattern. */
  function ShapeIds(s: Shape): set<nat>
  {
    match s
    case Cap(_, c) => Ids(c)
    case Action(c, id) => {id} + Ids(c)
    case Children(_, b) => Ids(b)
    case _ => {}
  }

  function Ids(c: Chain): set<nat>
  {
    ShapeIds(c.shape) + if c.Link? then Ids(c.next) else {}
  }

  /** Every action is a function object of its own. */
  predicate ShapeDistinct(s: Shape)
  {
    match s
    case Cap(_, c) => Distinct(c)
    case Action(c, id) => id !in Ids(c) && Distinct(c)
    case Children(_, b) => Distinct(b)
    case _ => true
  }

  predicate Distinct(c: Chain)
  {
    ShapeDistinct(c.shape) && (c.Link? ==> Distinct(c.next) && ShapeIds(c.shape) !! Ids(c.next))
  }

  /** The children from `i` on are the given ones. */
  predicate Offers(p: Parent, i: nat, ts: seq<Tree>)
  {
    i + |ts| <= |p.children| && p.children[i..i + |ts|] == ts
  }

  lemma OffersParts(p: Parent, i: nat, a: seq<Tree>, b: seq<Tree>)
    requires Offers(p, i, a + b)
    ensures Offers(p, i, a) && Offers(p, i + |a|, b)
  {
    assert p.children[i..i + |a|] == (a + b)[..|a|];
    assert p.children[i + |a|..i + |a| + |b|] == (a + b)[|a|..];
  }

  // ---------------------------------------------------------------------
  // A straight-line pattern on its sample
  // ---------------------------------------------------------------------

  /** What a successful run leaves: more captures in the same frame. */
  ghost predicate Gained(st: Stack, r: Run, end: nat, binds: bool)
    requires st.Ok()
  {
    && r.ok && r.it == end && r.stack.Ok() && r.stack.index == st.index
    && View(st).Keys <= View(r.stack).Keys
    && (binds ==> View(r.stack).Keys != {})
  }

  /** Every regex matches, and the given actions accept. */
  ghost predicate Consents(o: Oracle, ids: set<nat>)
  {
    (forall re, text :: o.fullMatch(re, text)) && forall id, range :: id in ids ==> o.action(id, range)
  }

  /** Every regex matches, and all actions but one accept. */
  ghost predicate AllBut(o: Oracle, hider: nat)
  {
    (forall re, text :: o.fullMatch(re, text)) && forall id, range :: o.action(id, range) <==> id != hider
  }

  lemma LeafRuns(o: Oracle, s: Shape, p: Parent, i: nat, st: Stack)
    requires IsLeaf(s) && st.Ok() && i < |p.children| && p.children[i].kind == LeafKind(s)
    requires forall re, text :: o.fullMatch(re, text)
    ensures RunShape(o, s, p, i, st) == Run(true, i + 1, st)
  {
  }

  lemma OffersOne(p: Parent, i: nat, t: Tree)
    requires Offers(p, i, [t])
    ensures i < |p.children| && p.children[i] == t
  {
    assert p.children[i] == p.children[i..i + 1][0];
  }

  lemma OffersAll(p: Parent)
    ensures Offers(p, 0, p.children)
  {
    assert p.children[0..|p.children|] == p.children;
  }

  lemma {:induction false} PlainRuns(o: Oracle, c: Chain, p: Parent, i: nat, st: Stack)
    requires Plain(c) && st.Ok() && Offers(p, i, Sample(c)) && Consents(o, Ids(c))
    ensures Gained(st, RunChain(o, c, p, i, st), i + |Sample(c)|, Binds(c))
    decreases c, 1
  {
    if c.Link? {
      OffersParts(p, i, ShapeSample(c.shape), Sample(c.next));
      ShapeRuns(o, c.shape, p, i, st);
      var r := RunShape(o, c.shape, p, i, st);
      PlainRuns(o, c.next, p, r.it, r.stack);
    } else {
      assert ShapeSample(c.shape) + [] == ShapeSample(c.shape);
      ShapeRuns(o, c.shape, p, i, st);
    }
  }

  lemma OneLeafRuns(o: Oracle, s: Shape, p: Parent, i: nat, st: Stack)
    requires IsLeaf(s) && st.Ok() && Offers(p, i, ShapeSample(s)) && forall re, text :: o.fullMatch(re, text)
    ensures Gained(st, RunShape(o, s, p, i, st), i + |ShapeSample(s)|, false)
  {
    OffersOne(p, i, Node(LeafKind(s), "", []));
    LeafRuns(o, s, p, i, st);
  }

  lemma {:induction false} ShapeRuns(o: Oracle, s: Shape, p: Parent, i: nat, st: Stack)
    requires ShapePlain(s) && st.Ok() && Offers(p, i, ShapeSample(s)) && Consents(o, ShapeIds(s))
    ensures Gained(st, RunShape(o, s, p, i, st), i + |ShapeSample(s)|, ShapeBinds(s))
    decreases s, 0
  {
    match s
    case Cap(name, c) =>
      PlainRuns(o, c, p, i, st);
      var r := RunChain(o, c, p, i, st);
      SetExtendsView(r.stack, name, Range(p, i, r.it));
      assert name in View(r.stack.Set(name, Range(p, i, r.it))).Keys;
    case Action(c, id) => PlainRuns(o, c, p, i, st);
    case Children(a, b) =>
      OffersOne(p, i, Node(LeafKind(a.shape), "", Sample(b)));
      LeafBinds(a);
      LeafRuns(o, a.shape, p, i, st);
      OffersAll(p.Inside(i));
      PlainRuns(o, b, p.Inside(i), 0, st);
    case Anything => OneLeafRuns(o, s, p, i, st);
    case TokenMatch(_) => OneLeafRuns(o, s, p, i, st);
    case RegexMatch(_, _) => OneLeafRuns(o, s, p, i, st);
  }

  /** The innermost action that hides a capture, the first such one. */
  function ShapeHider(s: Shape): nat
    requires ShapePlain(s) && ShapeBinds(s) && !ShapeHasCaptures(s)
  {
    match s
    case Action(c, id) => if HasCaptures(c) then id else Hider(c)
    case Children(a, b) =>
      LeafBinds(a);
      Hider(b)
  }

  function Hider(c: Chain): nat
    requires Plain(c) && Binds(c) && !HasCaptures(c)
  {
    if ShapeBinds(c.shape) then ShapeHider(c.shape) else Hider(c.next)
  }

  lemma {:induction false} HiderIsAction(c: Chain)
    requires Plain(c) && Binds(c) && !HasCaptures(c)
    ensures Hider(c) in Ids(c)
    decreases c
  {
    if ShapeBinds(c.shape) {
      if c.shape.Children? {
        LeafBinds(c.shape.inner);
        HiderIsAction(c.shape.below);
      } else if !HasCaptures(c.shape.inner) {
        HiderIsAction(c.shape.inner);
      }
    } else {
      HiderIsAction(c.next);
    }
  }

  /** What a failed run leaves behind: captures in the frame it ran in. */
  ghost predicate Littered(st: Stack, r: Run)
  {
    !r.ok && r.stack.Ok() && r.stack.index == st.index && View(r.stack).Keys != {}
  }

  /** If the action that hides a capture rejects, the run fails and the capture stays. */
  lemma {:induction false} PlainFails(o: Oracle, c: Chain, p: Parent, i: nat, st: Stack, hider: nat)
    requires Plain(c) && Distinct(c) && Binds(c) && !HasCaptures(c) && hider == Hider(c)
    requires st.Ok() && Offers(p, i, Sample(c)) && AllBut(o, hider)
    ensures Littered(st, RunChain(o, c, p, i, st))
    decreases c, 1
  {
    if c.Link? {
      OffersParts(p, i, ShapeSample(c.shape), Sample(c.next));
    } else {
      assert ShapeSample(c.shape) + [] == ShapeSample(c.shape);
    }
    if ShapeBinds(c.shape) {
      ShapeFails(o, c.shape, p, i, st, hider);
    } else {
      HiderIsAction(c.next);
      ShapeRuns(o, c.shape, p, i, st);
      var r := RunShape(o, c.shape, p, i, st);
      PlainFails(o, c.next, p, r.it, r.stack, hider);
    }
  }

  lemma {:induction false} ShapeFails(o: Oracle, s: Shape, p: Parent, i: nat, st: Stack, hider: nat)
    requires ShapePlain(s) && ShapeDistinct(s) && ShapeBinds(s) && !ShapeHasCaptures(s) && hider == ShapeHider(s)
    requires st.Ok() && Offers(p, i, ShapeSample(s)) && AllBut(o, hider)
    ensures Littered(st, RunShape(o, s, p, i, st))
    decreases s, 0
  {
    match s
    case Action(c, id) =>
      if HasCaptures(c) {
        PlainRuns(o, c, p, i, st);
      } else {
        PlainFails(o, c, p, i, st, hider);
      }
    case Children(a, b) =>
      OffersOne(p, i, Node(LeafKind(a.shape), "", Sample(b)));
      LeafBinds(a);
      LeafRuns(o, a.shape, p, i, st);
      OffersAll(p.Inside(i));
      PlainFails(o, b, p.Inside(i), 0, st, hider);
  }

  // ---------------------------------------------------------------------
  // Honest is exact
  // ---------------------------------------------------------------------

  /** On every input the frames do what the pattern means. */
  ghost predicate Refines(s: Shape)
  {
    forall o: Oracle, p: Parent, i: nat, st: Stack :: i <= |p.children| && st.Ok() ==>
      Agrees(RunShape(o, s, p, i, st), MatchShape(o, s, p, i, View(st)))
  }

  const EMPTY: Stack := Stack(0, [Frame(false, map[])])

  lemma EmptyView()
    ensures EMPTY.Ok() && View(EMPTY) == map[]
  {
    assert Merged(EMPTY.frames, 0) == map[];
  }

  lemma HonestRefines(s: Shape)
    requires ShapeLegal(s) && ShapeHonest(s)
    ensures Refines(s)
  {
    forall o: Oracle, p: Parent, i: nat, st: Stack | i <= |p.children| && st.Ok()
      ensures Agrees(RunShape(o, s, p, i, st), MatchShape(o, s, p, i, View(st)))
    {
      ShapeRefines(o, s, p, i, st);
    }
  }

  /** The sample as the whole content of a node. */
  function SamplePlace(c: Chain): Parent
    requires Plain(c)
  {
    Parent(0, Sample(c), [])
  }

  /** A pattern that succeeds on its sample with all actions consenting. */
  lemma SampleAccepted(c: Chain) returns (o: Oracle)
    requires Plain(c) && Binds(c)
    ensures Gained(EMPTY, RunChain(o, c, SamplePlace(c), 0, EMPTY), |Sample(c)|, true)
    ensures MatchChain(o, c, SamplePlace(c), 0, map[]).Success? && Sample(c) != []
  {
    o := Oracle((re, text) => true, (id, range) => true);
    var p := SamplePlace(c);
    EmptyView();
    assert p.children[0..0 + |Sample(c)|] == Sample(c);
    PlainRuns(o, c, p, 0, EMPTY);
    PlainLegal(c);
    ChainRefines(o, c, p, 0, EMPTY);
    ShapeSampleNonempty(c.shape);
  }

  /** A pattern that fails on its sample because the action that hides a capture rejects. */
  lemma SampleRejected(c: Chain) returns (o: Oracle)
    requires Plain(c) && Distinct(c) && Binds(c) && !HasCaptures(c)
    ensures Littered(EMPTY, RunChain(o, c, SamplePlace(c), 0, EMPTY))
    ensures MatchChain(o, c, SamplePlace(c), 0, map[]).Fail? && Sample(c) != []
  {
    var hider := Hider(c);
    o := Oracle((re, text) => true, (id, range) => id != hider);
    var p := SamplePlace(c);
    EmptyView();
    assert p.children[0..0 + |Sample(c)|] == Sample(c);
    PlainFails(o, c, p, 0, EMPTY, hider);
    PlainLegal(c);
    ChainRefines(o, c, p, 0, EMPTY);
    ShapeSampleNonempty(c.shape);
  }

  lemma Disagreement(o: Oracle, s: Shape, p: Parent)
    requires EMPTY.Ok() && View(EMPTY) == map[]
    requires RunShape(o, s, p, 0, EMPTY).stack.Ok() && View(RunShape(o, s, p, 0, EMPTY).stack).Keys != {}
    requires MatchShape(o, s, p, 0, map[]).Success? && MatchShape(o, s, p, 0, map[]).env == map[]
    ensures !Refines(s)
  {
    assert !Agrees(RunShape(o, s, p, 0, EMPTY), MatchShape(o, s, p, 0, View(EMPTY)));
  }

  /** Looking ahead for a straight-line pattern keeps its captures apart iff it has none, hidden or not. */
  lemma {:induction false} PredExact(c: Chain)
    requires Plain(c) && !HasCaptures(c)
    ensures Refines(Pred(c)) <==> !Binds(c)
  {
    PlainLegal(c);
    if Binds(c) {
      var o := SampleAccepted(c);
      EmptyView();
      Disagreement(o, Pred(c), SamplePlace(c));
    } else {
      HonestRefines(Pred(c));
    }
  }

  lemma {:induction false} RepExact(c: Chain)
    requires Plain(c) && !HasCaptures(c)
    ensures Refines(Rep(c)) <==> !Binds(c)
  {
    PlainLegal(c);
    if Binds(c) {
      var o := SampleAccepted(c);
      EmptyView();
      var p := SamplePlace(c);
      var r := RunChain(o, c, p, 0, EMPTY);
      assert RunRepeat(o, c, p, |p.children|, r.stack) == (|p.children|, r.stack);
      Disagreement(o, Rep(c), p);
    } else {
      HonestRefines(Rep(c));
    }
  }

  lemma {:induction false} NegPredExact(c: Chain)
    requires Plain(c) && Distinct(c) && !HasCaptures(c)
    ensures Refines(NegPred(c)) <==> !Binds(c)
  {
    PlainLegal(c);
    if Binds(c) {
      var o := SampleRejected(c);
      EmptyView();
      Disagreement(o, NegPred(c), SamplePlace(c));
    } else {
      HonestRefines(NegPred(c));
    }
  }

  lemma {:induction false} NotExact(c: Chain)
    requires Plain(c) && Distinct(c) && !HasCaptures(c)
    ensures Refines(Not(c)) <==> !Binds(c)
  {
    PlainLegal(c);
    if Binds(c) {
      var o := SampleRejected(c);
      EmptyView();
      Disagreement(o, Not(c), SamplePlace(c));
    } else {
      HonestRefines(Not(c));
    }
  }

  /** As the first branch, the pattern is safe before every second branch iff it hides no capture. */
  lemma {:induction false} ChoiceExact(c: Chain)
    requires Plain(c) && Distinct(c) && !HasCaptures(c)
    ensures (forall d :: Legal(d) && Honest(d) ==> Refines(Choice(c, d))) <==> !Binds(c)
  {
    PlainLegal(c);
    if Binds(c) {
      var d := End(First);
      var o := SampleRejected(c);
      EmptyView();
      var p := SamplePlace(c);
      var r := RunChain(o, c, p, 0, EMPTY);
      assert RunChain(o, d, p, 0, r.stack) == Run(true, 0, r.stack);
      assert MatchChain(o, d, p, 0, map[]) == Success(0, map[]);
      Disagreement(o, Choice(c, d), p);
      assert Legal(d) && Honest(d);
    } else {
      forall d | Legal(d) && Honest(d)
        ensures Refines(Choice(c, d))
      {
        HonestRefines(Choice(c, d));
      }
    }
  }

  /** With captures in sight the choice opens a frame, and hidden ones do no harm. */
  lemma SeenCapturesSafe(c: Chain, d: Chain)
    requires Plain(c) && HasCaptures(c) && Legal(d) && Honest(d)
    ensures Refines(Choice(c, d))
  {
    PlainLegal(c);
    HonestRefines(Choice(c, d));
  }

  /** The condition is about places that can be reached: behind a part that never matches nothing leaks. */
  lemma UnreachedIsHarmless(o: Oracle, x: Name, p: Parent, i: nat, st: Stack)
    requires i <= |p.children| && st.Ok()
    ensures var hidden := End(Action(End(Cap(x, End(Anything))), 0));
            var c := Link(TokenMatch([]), End(Pred(hidden)));
            && !Honest(c) && Agrees(RunChain(o, c, p, i, st), MatchChain(o, c, p, i, View(st)))
  {
    var cap := End(Cap(x, End(Anything)));
    var hidden := End(Action(cap, 0));
    var c := Link(TokenMatch([]), End(Pred(hidden)));
    OnePart(Cap(x, End(Anything)));
    OnePart(Action(cap, 0));
    OnePart(Pred(hidden));
    assert c.next == End(Pred(hidden));
  }

  // ---------------------------------------------------------------------
  // The leak at work
  // ---------------------------------------------------------------------

  /**
   * Actions need not reject for the leak to show: a first branch that fails
   * after the action leaves the capture for the second branch.
   */
  lemma {:induction false} HiddenCaptureLeaks(o: Oracle, x: Name, a: Kind, b: Kind)
    requires forall id, range :: o.action(id, range)
    ensures var leaky := End(Choice(Link(Action(End(Cap(x, End(TokenMatch([a])))), 0), End(TokenMatch([b]))), End(TokenMatch([a]))));
            var p := Parent(b, [Node(a, "", [])], []);
            var r := RunChain(o, leaky, p, 0, EMPTY);
            && Legal(leaky) && !HasCaptures(leaky)
            && r.ok && r.stack.Ok() && View(r.stack) != map[] && MatchChain(o, leaky, p, 0, map[]) == Success(1, map[])
  {
    var token, next := TokenMatch([a]), TokenMatch([b]);
    var cap, act := Cap(x, End(token)), Action(End(Cap(x, End(token))), 0);
    var first := Link(act, End(next));
    var p := Parent(b, [Node(a, "", [])], []);
    OnePart(token);
    OnePart(next);
    OnePart(cap);
    TwoParts(act, End(next));
    EmptyView();
    OneRuns(o, token, p, 0, EMPTY);
    OneRuns(o, cap, p, 0, EMPTY);
    var r := RunShape(o, act, p, 0, EMPTY);
    assert r == Run(true, 1, EMPTY.Set(x, Range(p, 0, 1)));
    SetExtendsView(EMPTY, x, Range(p, 0, 1));
    assert x in View(r.stack).Keys;
    TwoRuns(o, act, next, p, 0, EMPTY);
    OneRuns(o, next, p, 1, r.stack);
    OneRuns(o, token, p, 0, r.stack);
    PlainLegal(first);
    ChainRefines(o, first, p, 0, EMPTY);
    OneRuns(o, token, p, 0, EMPTY);
    OnePart(Choice(first, End(token)));
    OneRuns(o, Choice(first, End(token)), p, 0, EMPTY);
    assert RunShape(o, Choice(first, End(token)), p, 0, EMPTY) == Run(true, 1, r.stack);
  }

  /** The properties of a chain of one part. */
  lemma OnePart(s: Shape)
    ensures Binds(End(s)) == ShapeBinds(s) && HasCaptures(End(s)) == ShapeHasCaptures(s)
    ensures Legal(End(s)) == ShapeLegal(s) && Honest(End(s)) == ShapeHonest(s)
    ensures Plain(End(s)) == ShapePlain(s) && (ShapePlain(s) ==> Sample(End(s)) == ShapeSample(s))
  {
    if ShapePlain(s) {
      assert ShapeSample(s) + [] == ShapeSample(s);
    }
  }

  lemma TwoParts(s: Shape, next: Chain)
    ensures HasCaptures(Link(s, next)) == (ShapeHasCaptures(s) || HasCaptures(next))
    ensures Plain(Link(s, next)) == (ShapePlain(s) && Plain(next))
  {
  }

  lemma OneRuns(o: Oracle, s: Shape, p: Parent, i: nat, st: Stack)
    requires i <= |p.children| && st.Ok()
    ensures RunChain(o, End(s), p, i, st) == RunShape(o, s, p, i, st)
    ensures MatchChain(o, End(s), p, i, View(st)) == MatchShape(o, s, p, i, View(st))
  {
  }

  lemma TwoRuns(o: Oracle, s: Shape, next: Shape, p: Parent, i: nat, st: Stack)
    requires i <= |p.children| && st.Ok() && !s.Last?
    ensures var r := RunShape(o, s, p, i, st);
            RunChain(o, Link(s, End(next)), p, i, st) == if r.ok then RunChain(o, End(next), p, r.it, r.stack) else r
  {
  }
}
