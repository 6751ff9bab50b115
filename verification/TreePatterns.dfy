// Tree patterns and their meaning: the PatternDef subclasses in rewrite.h,
// with captures as an immutable environment.

module TreePatterns {

  type Kind = nat
  type Name = nat

  /** A node: its kind, its text, its children. */
  datatype Tree = Node(kind: Kind, text: string, children: seq<Tree>)

  /** Where a pattern is matched: a node's kind, its children, and the kinds of the nodes above it. */
  datatype Parent = Parent(kind: Kind, children: seq<Tree>, above: seq<Kind>)
  {
    /** The place inside child `i`. */
    function Inside(i: nat): Parent
      requires i < |children|
    {
      Parent(children[i].kind, children[i].children, [kind] + above)
    }
  }

  /** A captured stretch of children. */
  datatype Range = Range(parent: Parent, begin: nat, end: nat)

  type Env = map<Name, Range>

  /** What the patterns call outside the matcher: full regex matches and user actions. */
  datatype Oracle = Oracle(fullMatch: (nat, string) -> bool, action: (nat, Range) -> bool)

  /** One pattern node. */
  datatype Shape =
    | Cap(name: Name, inner: Chain)
    | Anything
    | TokenMatch(types: seq<Kind>)
    | RegexMatch(type_: Kind, regex: nat)
    | Opt(inner: Chain)
    | Rep(inner: Chain)
    | Not(inner: Chain)
    | Choice(first: Chain, second: Chain)
    | InsideStar(types: seq<Kind>)
    | Inside(types: seq<Kind>)
    | First
    | Last
    | Children(inner: Chain, below: Chain)
    | Pred(inner: Chain)
    | NegPred(inner: Chain)
    | Action(inner: Chain, id: nat)

  /** A pattern node with its continuation. */
  datatype Chain = End(shape: Shape) | Link(shape: Shape, next: Chain)

  // ---------------------------------------------------------------------
  // Static properties
  // ---------------------------------------------------------------------

  predicate ShapeHasCaptures(s: Shape)
  {
    match s
    case Cap(_, _) => true
    case Opt(c) => HasCaptures(c)
    case Choice(a, b) => HasCaptures(a) || HasCaptures(b)
    case Children(a, b) => HasCaptures(a) || HasCaptures(b)
    case _ => false
  }

  predicate HasCaptures(c: Chain)
  {
    ShapeHasCaptures(c.shape) || (c.Link? && HasCaptures(c.next))
  }

  /** Constructors refuse captures in repetitions and predicates, and nothing follows `Last`. */
  predicate ShapeLegal(s: Shape)
  {
    match s
    case Cap(_, c) => Legal(c)
    case Opt(c) => Legal(c)
    case Rep(c) => Legal(c) && !HasCaptures(c)
    case Not(c) => Legal(c) && !HasCaptures(c)
    case Choice(a, b) => Legal(a) && Legal(b)
    case Children(a, b) => Legal(a) && Legal(b)
    case Pred(c) => Legal(c) && !HasCaptures(c)
    case NegPred(c) => Legal(c) && !HasCaptures(c)
    case Action(c, _) => Legal(c)
    case _ => true
  }

  predicate Legal(c: Chain)
  {
    ShapeLegal(c.shape) && (c.Link? ==> !c.shape.Last? && Legal(c.next))
  }

  /** A capture occurs somewhere in the pattern; unlike `HasCaptures`, this looks inside actions too. */
  predicate ShapeBinds(s: Shape)
  {
    match s
    case Cap(_, _) => true
    case Opt(c) => Binds(c)
    case Rep(c) => Binds(c)
    case Not(c) => Binds(c)
    case Choice(a, b) => Binds(a) || Binds(b)
    case Children(a, b) => Binds(a) || Binds(b)
    case Pred(c) => Binds(c)
    case NegPred(c) => Binds(c)
    case Action(c, _) => Binds(c)
    case _ => false
  }

  predicate Binds(c: Chain)
  {
    ShapeBinds(c.shape) || (c.Link? && Binds(c.next))
  }

  lemma {:induction false} HasCapturesBinds(c: Chain)
    requires HasCaptures(c)
    ensures Binds(c)
    decreases c, 1
  {
    if ShapeHasCaptures(c.shape) {
      ShapeHasCapturesBinds(c.shape);
    } else {
      HasCapturesBinds(c.next);
    }
  }

  lemma {:induction false} ShapeHasCapturesBinds(s: Shape)
    requires ShapeHasCaptures(s)
    ensures ShapeBinds(s)
    decreases s, 0
  {
    match s
    case Opt(c) => HasCapturesBinds(c);
    case Choice(a, b) => if HasCaptures(a) { HasCapturesBinds(a); } else { HasCapturesBinds(b); }
    case Children(a, b) => if HasCaptures(a) { HasCapturesBinds(a); } else { HasCapturesBinds(b); }
    case _ =>
  }

  /**
   * An action does not report captures inside it, so the constructors and the
   * choice do not see them. In an honest pattern no capture is hidden in this
   * way where it matters: under a repetition or predicate, or in the first
   * branch of a choice that is thought to be free of captures.
   */
  predicate ShapeHonest(s: Shape)
  {
    match s
    case Cap(_, c) => Honest(c)
    case Opt(c) => Honest(c)
    case Rep(c) => Honest(c) && !Binds(c)
    case Not(c) => Honest(c) && !Binds(c)
    case Choice(a, b) => Honest(a) && Honest(b) && (Binds(a) ==> HasCaptures(a))
    case Children(a, b) => Honest(a) && Honest(b)
    case Pred(c) => Honest(c) && !Binds(c)
    case NegPred(c) => Honest(c) && !Binds(c)
    case Action(c, _) => Honest(c)
    case _ => true
  }

  predicate Honest(c: Chain)
  {
    ShapeHonest(c.shape) && (c.Link? ==> Honest(c.next))
  }

  // ---------------------------------------------------------------------
  // Meaning
  // ---------------------------------------------------------------------

  /** A match: where it ends, and the captures made. */
  datatype Result = Fail | Success(end: nat, env: Env)

  predicate InAncestors(types: seq<Kind>, p: Parent)
  {
    p.kind in types || exists k :: 0 <= k < |p.above| && p.above[k] in types
  }

  /**
   * Matching one pattern node at child `i`. Choice is ordered and commits,
   * an optional part that fails leaves no captures, and repetition is greedy.
   */
  ghost function MatchShape(o: Oracle, s: Shape, p: Parent, i: nat, env: Env): (r: Result)
    requires i <= |p.children|
    ensures r.Success? ==> i <= r.end <= |p.children|
    decreases s, 0
  {
    match s
    case Cap(name, c) =>
      var r := MatchChain(o, c, p, i, env);
      if r.Fail? then Fail else Success(r.end, r.env[name := Range(p, i, r.end)])
    case Anything => if i < |p.children| then Success(i + 1, env) else Fail
    case TokenMatch(types) => if i < |p.children| && p.children[i].kind in types then Success(i + 1, env) else Fail
    case RegexMatch(t, re) =>
      if i < |p.children| && p.children[i].kind == t && o.fullMatch(re, p.children[i].text) then Success(i + 1, env) else Fail
    case Opt(c) =>
      var r := MatchChain(o, c, p, i, env);
      if r.Fail? then Success(i, env) else r
    case Rep(c) => Success(RepeatEnd(o, c, p, i), env)
    case Not(c) => if i < |p.children| && MatchChain(o, c, p, i, env).Fail? then Success(i + 1, env) else Fail
    case Choice(a, b) =>
      var r := MatchChain(o, a, p, i, env);
      if r.Fail? then MatchChain(o, b, p, i, env) else r
    case InsideStar(types) => if InAncestors(types, p) then Success(i, env) else Fail
    case Inside(types) => if p.kind in types then Success(i, env) else Fail
    case First => if i == 0 then Success(i, env) else Fail
    case Last => if i == |p.children| then Success(i, env) else Fail
    case Children(a, b) =>
      var r := MatchChain(o, a, p, i, env);
      if r.Fail? || i == |p.children| then Fail
      else
        var below := MatchChain(o, b, p.Inside(i), 0, r.env);
        if below.Fail? then Fail else Success(r.end, below.env)
    case Pred(c) => if MatchChain(o, c, p, i, env).Fail? then Fail else Success(i, env)
    case NegPred(c) => if MatchChain(o, c, p, i, env).Fail? then Success(i, env) else Fail
    case Action(c, id) =>
      var r := MatchChain(o, c, p, i, env);
      if r.Success? && o.action(id, Range(p, i, r.end)) then r else Fail
  }

  ghost function MatchChain(o: Oracle, c: Chain, p: Parent, i: nat, env: Env): (r: Result)
    requires i <= |p.children|
    ensures r.Success? ==> i <= r.end <= |p.children|
    decreases c, 1
  {
    var r := MatchShape(o, c.shape, p, i, env);
    if r.Fail? || c.End? || c.shape.Last? then r
    else MatchChain(o, c.next, p, r.end, r.env)
  }

  /** Where greedy repetition ends. A repeated part that matches nothing would repeat forever. */
  ghost function RepeatEnd(o: Oracle, c: Chain, p: Parent, i: nat): (end: nat)
    requires i <= |p.children|
    ensures i <= end <= |p.children|
    decreases c, 2, |p.children| - i
  {
    if i == |p.children| then i
    else
      var r := MatchChain(o, c, p, i, map[]);
      if r.Fail? || r.end == i then i else RepeatEnd(o, c, p, r.end)
  }

  // ---------------------------------------------------------------------
  // Where a match ends does not depend on the captures before it
  // ---------------------------------------------------------------------

  predicate SameEnd(a: Result, b: Result)
  {
    (a.Fail? <==> b.Fail?) && (a.Success? ==> a.end == b.end)
  }

  lemma {:induction false} EndIgnoresEnv(o: Oracle, c: Chain, p: Parent, i: nat, e: Env, f: Env)
    requires i <= |p.children|
    ensures SameEnd(MatchChain(o, c, p, i, e), MatchChain(o, c, p, i, f))
    decreases c, 1
  {
    ShapeEndIgnoresEnv(o, c.shape, p, i, e, f);
    if c.Link? && !c.shape.Last? {
      var a, b := MatchShape(o, c.shape, p, i, e), MatchShape(o, c.shape, p, i, f);
      if a.Success? {
        EndIgnoresEnv(o, c.next, p, a.end, a.env, b.env);
      }
    }
  }

  lemma {:induction false} ShapeEndIgnoresEnv(o: Oracle, s: Shape, p: Parent, i: nat, e: Env, f: Env)
    requires i <= |p.children|
    ensures SameEnd(MatchShape(o, s, p, i, e), MatchShape(o, s, p, i, f))
    decreases s, 0
  {
    match s
    case Cap(_, c) => EndIgnoresEnv(o, c, p, i, e, f);
    case Opt(c) => EndIgnoresEnv(o, c, p, i, e, f);
    case Not(c) => EndIgnoresEnv(o, c, p, i, e, f);
    case Pred(c) => EndIgnoresEnv(o, c, p, i, e, f);
    case NegPred(c) => EndIgnoresEnv(o, c, p, i, e, f);
    case Action(c, _) => EndIgnoresEnv(o, c, p, i, e, f);
    case Choice(a, b) =>
      EndIgnoresEnv(o, a, p, i, e, f);
      EndIgnoresEnv(o, b, p, i, e, f);
    case Children(a, b) =>
      EndIgnoresEnv(o, a, p, i, e, f);
      if i < |p.children| {
        EndIgnoresEnv(o, b, p.Inside(i), 0, MatchChainEnv(o, a, p, i, e), MatchChainEnv(o, a, p, i, f));
      }
    case _ =>
  }

  ghost function MatchChainEnv(o: Oracle, c: Chain, p: Parent, i: nat, e: Env): Env
    requires i <= |p.children|
  {
    var r := MatchChain(o, c, p, i, e);
    if r.Success? then r.env else e
  }

  /** A pattern without captures leaves the environment alone. */
  lemma {:induction false} NoCapturesKeep(o: Oracle, c: Chain, p: Parent, i: nat, e: Env)
    requires i <= |p.children| && !Binds(c)
    ensures MatchChain(o, c, p, i, e).Success? ==> MatchChain(o, c, p, i, e).env == e
    decreases c, 1
  {
    ShapeKeeps(o, c.shape, p, i, e);
    if c.Link? && !c.shape.Last? {
      var r := MatchShape(o, c.shape, p, i, e);
      if r.Success? {
        NoCapturesKeep(o, c.next, p, r.end, r.env);
      }
    }
  }

  lemma {:induction false} ShapeKeeps(o: Oracle, s: Shape, p: Parent, i: nat, e: Env)
    requires i <= |p.children| && !ShapeBinds(s)
    ensures MatchShape(o, s, p, i, e).Success? ==> MatchShape(o, s, p, i, e).env == e
    decreases s, 0
  {
    match s
    case Opt(c) => NoCapturesKeep(o, c, p, i, e);
    case Action(c, _) => NoCapturesKeep(o, c, p, i, e);
    case Choice(a, b) =>
      NoCapturesKeep(o, a, p, i, e);
      NoCapturesKeep(o, b, p, i, e);
    case Children(a, b) =>
      NoCapturesKeep(o, a, p, i, e);
      if i < |p.children| {
        NoCapturesKeep(o, b, p.Inside(i), 0, e);
      }
    case _ =>
  }
}
