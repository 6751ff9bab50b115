// The pattern combinators and the quick check they maintain beside each
// pattern: Pattern and FastPattern in rewrite.h.

module FastPatterns {
  import opened Options
  import opened TreePatterns

  // ---------------------------------------------------------------------
  // The quick check
  // ---------------------------------------------------------------------

  /** Which kinds a match can start with and which parent it needs; empty sets exclude nothing. */
  datatype FastPattern = FastPattern(starts: set<Kind>, parents: set<Kind>, passThrough: bool)
  {
    predicate AnyFirst() { starts == {} && !passThrough }

    /** Whether a rule with this check is tried at a child of kind `k` under a parent of kind `parent`. */
    predicate Allows(parent: Kind, k: Kind)
    {
      (parents == {} || parent in parents) && (starts == {} || passThrough || k in starts)
    }
  }

  const MATCH_ANY: FastPattern := FastPattern({}, {}, false)
  const MATCH_PRED: FastPattern := FastPattern({}, {}, true)

  function MatchToken(kinds: set<Kind>): FastPattern { FastPattern(kinds, {}, false) }

  function MatchParent(kinds: set<Kind>): FastPattern { FastPattern({}, kinds, true) }

  function MatchChoice(l: FastPattern, r: FastPattern): FastPattern
  {
    var known := !r.AnyFirst() && !l.AnyFirst();
    FastPattern(if known then l.starts + r.starts else {},
                if r.parents != {} && l.parents != {} then l.parents + r.parents else {},
                known && (l.passThrough || r.passThrough))
  }

  function MatchSeq(l: FastPattern, r: FastPattern): FastPattern
  {
    var joined := l.passThrough && !r.AnyFirst();
    FastPattern(if joined then l.starts + r.starts else if l.passThrough then {} else l.starts,
                if l.parents == {} then r.parents else if r.parents == {} then l.parents else l.parents * r.parents,
                joined && r.passThrough)
  }

  function MatchOpt(f: FastPattern): FastPattern
  {
    if f.AnyFirst() then f else FastPattern(f.starts, {}, true)
  }

  // ---------------------------------------------------------------------
  // Combinators
  // ---------------------------------------------------------------------

  datatype Pattern = Pattern(chain: Chain, fast: FastPattern)

  /** The expressions patterns are written with. */
  datatype Expr =
    | Any
    | Start
    | Finish
    | T(types: seq<Kind>)
    | TRegex(type_: Kind, regex: nat)
    | In(types: seq<Kind>)
    | Seq(left: Expr, right: Expr)
    | Either(left: Expr, right: Expr)
    | Optional(body: Expr)
    | Repeated(body: Expr)
    | Negated(body: Expr)
    | Ahead(body: Expr)
    | NotAhead(body: Expr)
    | Named(body: Expr, name: Name)
    | Checked(body: Expr, id: nat)
    | Below(body: Expr, children: Expr)

  /** Setting a continuation: it goes to the end of the chain, and nothing may follow `Last`. */
  function Append(a: Chain, b: Chain): Option<Chain>
  {
    if a.shape.Last? then None
    else
      match a
      case End(s) => Some(Link(s, b))
      case Link(s, next) =>
        match Append(next, b) {
          case None => None
          case Some(c) => Some(Link(s, c))
        }
  }

  /** The tokens of a lone token match. */
  function OnlyTokens(c: Chain): seq<Kind>
  {
    if c.End? && c.shape.TokenMatch? then c.shape.types else []
  }

  /** What repeating a pattern gives; None where it is refused. */
  function RepeatPattern(p: Pattern): Option<Pattern>
  {
    var s := p.chain.shape;
    if s.InsideStar? || s.First? || s.Last? || s.Pred? || s.NegPred? then None
    else if s.Rep? && p.chain.End? then Some(Pattern(p.chain, MATCH_ANY))
    else if s.Inside? && p.chain.End? then Some(Pattern(End(InsideStar(s.types)), MATCH_ANY))
    else if HasCaptures(p.chain) then None
    else Some(Pattern(End(Rep(p.chain)), MatchOpt(p.fast)))
  }

  /** The choice of two patterns; two lone token matches become one. */
  function ChoicePattern(l: Pattern, r: Pattern): Pattern
  {
    var a, b := OnlyTokens(l.chain), OnlyTokens(r.chain);
    Pattern(if a != [] && b != [] then End(TokenMatch(a + b)) else End(Choice(l.chain, r.chain)), MatchChoice(l.fast, r.fast))
  }

  /** The pattern an expression builds; None where a combinator throws. */
  function Build(e: Expr): Option<Pattern>
  {
    match e
    case Any => Some(Pattern(End(Anything), MATCH_ANY))
    case Start => Some(Pattern(End(First), MATCH_PRED))
    case Finish => Some(Pattern(End(Last), MATCH_PRED))
    case T(types) => Some(Pattern(End(TokenMatch(types)), MatchToken(set t | t in types)))
    case TRegex(t, re) => Some(Pattern(End(RegexMatch(t, re)), MatchToken({t})))
    case In(types) => Some(Pattern(End(Inside(types)), MatchParent(set t | t in types)))
    case Seq(a, b) =>
      (match (Build(a), Build(b))
       case (Some(l), Some(r)) =>
         (match Append(l.chain, r.chain)
          case Some(c) => Some(Pattern(c, MatchSeq(l.fast, r.fast)))
          case None => None)
       case _ => None)
    case Either(a, b) =>
      (match (Build(a), Build(b))
       case (Some(l), Some(r)) => Some(ChoicePattern(l, r))
       case _ => None)
    case Optional(a) =>
      (match Build(a)
       case Some(p) => Some(Pattern(End(Opt(p.chain)), MatchOpt(p.fast)))
       case None => None)
    case Repeated(a) =>
      (match Build(a)
       case Some(p) => RepeatPattern(p)
       case None => None)
    case Negated(a) =>
      (match Build(a)
       case Some(p) => if HasCaptures(p.chain) then None else Some(Pattern(End(Not(p.chain)), MATCH_ANY))
       case None => None)
    case Ahead(a) =>
      (match Build(a)
       case Some(p) => if HasCaptures(p.chain) then None else Some(Pattern(End(Pred(p.chain)), MATCH_PRED))
       case None => None)
    case NotAhead(a) =>
      (match Build(a)
       case Some(p) => if HasCaptures(p.chain) then None else Some(Pattern(End(NegPred(p.chain)), MATCH_PRED))
       case None => None)
    case Named(a, name) =>
      (match Build(a)
       case Some(p) => Some(Pattern(End(Cap(name, p.chain)), p.fast))
       case None => None)
    case Checked(a, id) =>
      (match Build(a)
       case Some(p) => Some(Pattern(End(Action(p.chain, id)), p.fast))
       case None => None)
    case Below(a, b) =>
      (match (Build(a), Build(b))
       case (Some(l), Some(r)) => Some(Pattern(End(Children(l.chain, r.chain)), l.fast))
       case _ => None)
  }

  /** What the combinators build is legal. */
  lemma {:induction false} BuildLegal(e: Expr)
    ensures Build(e).Some? ==> Legal(Build(e).value.chain)
  {
    match e
    case Seq(a, b) =>
      BuildLegal(a);
      BuildLegal(b);
      if Build(a).Some? && Build(b).Some? {
        AppendLegal(Build(a).value.chain, Build(b).value.chain);
      }
    case Either(a, b) =>
      BuildLegal(a);
      BuildLegal(b);
    case Below(a, b) =>
      BuildLegal(a);
      BuildLegal(b);
    case Optional(a) => BuildLegal(a);
    case Repeated(a) => BuildLegal(a);
    case Negated(a) => BuildLegal(a);
    case Ahead(a) => BuildLegal(a);
    case NotAhead(a) => BuildLegal(a);
    case Named(a, _) => BuildLegal(a);
    case Checked(a, _) => BuildLegal(a);
    case _ =>
  }

  lemma {:induction false} AppendLegal(a: Chain, b: Chain)
    requires Legal(a) && Legal(b)
    ensures Append(a, b).Some? ==> Legal(Append(a, b).value)
    ensures Append(a, b).Some? ==> Append(a, b).value.Link? && Append(a, b).value.shape == a.shape
  {
    if a.Link? {
      AppendLegal(a.next, b);
    }
  }

  // ---------------------------------------------------------------------
  // Soundness
  // ---------------------------------------------------------------------

  /** What the check promises about one match of the pattern. */
  ghost predicate Explains(f: FastPattern, p: Parent, i: nat, end: nat)
    requires i <= end <= |p.children|
  {
    && (f.parents == {} || p.kind in f.parents)
    && (f.AnyFirst() || (if i < end then p.children[i].kind in f.starts else f.passThrough))
  }

  /** The check holds of every match. */
  ghost predicate Sound(o: Oracle, q: Pattern)
  {
    forall p: Parent, i: nat, env: Env :: i <= |p.children| && MatchChain(o, q.chain, p, i, env).Success? ==>
      Explains(q.fast, p, i, MatchChain(o, q.chain, p, i, env).end)
  }

  lemma {:induction false} AppendMeaning(o: Oracle, a: Chain, b: Chain, p: Parent, i: nat, env: Env)
    requires i <= |p.children| && Append(a, b).Some?
    ensures var r := MatchChain(o, a, p, i, env);
            MatchChain(o, Append(a, b).value, p, i, env) == if r.Fail? then Fail else MatchChain(o, b, p, r.end, r.env)
  {
    if a.Link? {
      var r := MatchShape(o, a.shape, p, i, env);
      if r.Success? {
        AppendMeaning(o, a.next, b, p, r.end, r.env);
      }
    }
  }

  lemma SeqSound(o: Oracle, l: Pattern, r: Pattern, c: Chain)
    requires Sound(o, l) && Sound(o, r) && Append(l.chain, r.chain) == Some(c)
    ensures Sound(o, Pattern(c, MatchSeq(l.fast, r.fast)))
  {
    forall p: Parent, i: nat, env: Env | i <= |p.children| && MatchChain(o, c, p, i, env).Success?
      ensures Explains(MatchSeq(l.fast, r.fast), p, i, MatchChain(o, c, p, i, env).end)
    {
      AppendMeaning(o, l.chain, r.chain, p, i, env);
      var m := MatchChain(o, l.chain, p, i, env);
      assert Explains(l.fast, p, i, m.end);
      assert Explains(r.fast, p, m.end, MatchChain(o, r.chain, p, m.end, m.env).end);
    }
  }

  /** A match as a lone token match of all the kinds is a match of one of the two. */
  lemma ChoiceMatches(o: Oracle, l: Pattern, r: Pattern, p: Parent, i: nat, env: Env)
    requires i <= |p.children|
    ensures var m := MatchChain(o, ChoicePattern(l, r).chain, p, i, env);
            m.Success? ==> m == MatchChain(o, l.chain, p, i, env) || m == MatchChain(o, r.chain, p, i, env)
  {
  }

  lemma ChoiceSound(o: Oracle, l: Pattern, r: Pattern)
    requires Sound(o, l) && Sound(o, r)
    ensures Sound(o, ChoicePattern(l, r))
  {
    var q := ChoicePattern(l, r);
    forall p: Parent, i: nat, env: Env | i <= |p.children| && MatchChain(o, q.chain, p, i, env).Success?
      ensures Explains(q.fast, p, i, MatchChain(o, q.chain, p, i, env).end)
    {
      ChoiceMatches(o, l, r, p, i, env);
      assert MatchChain(o, l.chain, p, i, env).Success? ==> Explains(l.fast, p, i, MatchChain(o, l.chain, p, i, env).end);
      assert MatchChain(o, r.chain, p, i, env).Success? ==> Explains(r.fast, p, i, MatchChain(o, r.chain, p, i, env).end);
    }
  }

  lemma {:induction false} FreshKind(s: set<Kind>) returns (k: Kind)
    ensures k !in s && forall x :: x in s ==> x < k
    decreases |s|
  {
    if s == {} {
      k := 0;
    } else {
      var x :| x in s;
      var j := FreshKind(s - {x});
      k := if x < j then j else x + 1;
      assert forall y :: y in s ==> y == x || y in s - {x};
    }
  }

  /** A check that cannot be kept for an optional part: it names parents but no first kinds. */
  predicate Hollow(f: FastPattern) { f.AnyFirst() && f.parents != {} }

  /** Under a parent of any other kind the absent part matches, against the check. */
  lemma HollowUnsound(o: Oracle, q: Pattern, c: Chain)
    requires Hollow(q.fast)
    requires forall p: Parent, env: Env :: p.children == [] ==> MatchChain(o, c, p, 0, env).Success?
    ensures !Sound(o, Pattern(c, MatchOpt(q.fast)))
  {
    var k := FreshKind(q.fast.parents);
    var p := Parent(k, [], []);
    assert MatchChain(o, c, p, 0, map[]).Success?;
    assert !Explains(MatchOpt(q.fast), p, 0, MatchChain(o, c, p, 0, map[]).end);
  }

  /** The check of an optional pattern is sound exactly if the operand's check is not hollow. */
  lemma OptSoundIff(o: Oracle, q: Pattern)
    requires Sound(o, q)
    ensures Sound(o, Pattern(End(Opt(q.chain)), MatchOpt(q.fast))) <==> !Hollow(q.fast)
  {
    var c := End(Opt(q.chain));
    if Hollow(q.fast) {
      forall p: Parent, env: Env | p.children == []
        ensures MatchChain(o, c, p, 0, env).Success?
      {
        assert MatchShape(o, Opt(q.chain), p, 0, env).Success?;
      }
      HollowUnsound(o, q, c);
    } else {
      forall p: Parent, i: nat, env: Env | i <= |p.children| && MatchChain(o, c, p, i, env).Success?
        ensures Explains(MatchOpt(q.fast), p, i, MatchChain(o, c, p, i, env).end)
      {
        var m := MatchChain(o, q.chain, p, i, env);
        assert m.Success? ==> Explains(q.fast, p, i, m.end);
      }
    }
  }

  /** The check of a repeated pattern is sound exactly if the operand's check is not hollow. */
  lemma RepSoundIff(o: Oracle, q: Pattern)
    requires Sound(o, q)
    ensures Sound(o, Pattern(End(Rep(q.chain)), MatchOpt(q.fast))) <==> !Hollow(q.fast)
  {
    var c := End(Rep(q.chain));
    if Hollow(q.fast) {
      forall p: Parent, env: Env | p.children == []
        ensures MatchChain(o, c, p, 0, env).Success?
      {
        assert MatchShape(o, Rep(q.chain), p, 0, env).Success?;
      }
      HollowUnsound(o, q, c);
    } else {
      forall p: Parent, i: nat, env: Env | i <= |p.children| && MatchChain(o, c, p, i, env).Success?
        ensures Explains(MatchOpt(q.fast), p, i, MatchChain(o, c, p, i, env).end)
      {
        assert MatchShape(o, Rep(q.chain), p, i, env) == Success(RepeatEnd(o, q.chain, p, i), env);
        if RepeatEnd(o, q.chain, p, i) > i {
          var m := MatchChain(o, q.chain, p, i, map[]);
          assert Explains(q.fast, p, i, m.end);
        }
      }
    }
  }

  /** A check that excludes nothing is always sound; so is a predicate's for a pattern that consumes nothing. */
  lemma PlainSound(o: Oracle, c: Chain)
    ensures Sound(o, Pattern(c, MATCH_ANY))
    ensures (forall p: Parent, i: nat, env: Env :: i <= |p.children| && MatchChain(o, c, p, i, env).Success? ==>
               MatchChain(o, c, p, i, env).end == i) ==> Sound(o, Pattern(c, MATCH_PRED))
  {
  }

  /** A pattern that matches only where another one does, and ends there, inherits its check. */
  lemma NarrowSound(o: Oracle, q: Pattern, c: Chain)
    requires Sound(o, q)
    requires forall p: Parent, i: nat, env: Env :: i <= |p.children| && MatchChain(o, c, p, i, env).Success? ==>
               MatchChain(o, q.chain, p, i, env).Success? && MatchChain(o, c, p, i, env).end == MatchChain(o, q.chain, p, i, env).end
    ensures Sound(o, Pattern(c, q.fast))
  {
    forall p: Parent, i: nat, env: Env | i <= |p.children| && MatchChain(o, c, p, i, env).Success?
      ensures Explains(q.fast, p, i, MatchChain(o, c, p, i, env).end)
    {
      assert MatchChain(o, q.chain, p, i, env).Success?;
    }
  }

  lemma BelowSound(o: Oracle, q: Pattern, b: Chain)
    requires Sound(o, q)
    ensures Sound(o, Pattern(End(Children(q.chain, b)), q.fast))
  {
    NarrowSound(o, q, End(Children(q.chain, b)));
  }

  lemma NamedSound(o: Oracle, q: Pattern, name: Name)
    requires Sound(o, q)
    ensures Sound(o, Pattern(End(Cap(name, q.chain)), q.fast))
  {
    NarrowSound(o, q, End(Cap(name, q.chain)));
  }

  lemma CheckedSound(o: Oracle, q: Pattern, id: nat)
    requires Sound(o, q)
    ensures Sound(o, Pattern(End(Action(q.chain, id)), q.fast))
  {
    NarrowSound(o, q, End(Action(q.chain, id)));
  }

  lemma {:induction false} LeafSound(o: Oracle, e: Expr)
    requires e.Any? || e.Start? || e.Finish? || e.T? || e.TRegex? || e.In?
    ensures Sound(o, Build(e).value)
  {
  }

  lemma RepeatSound(o: Oracle, q: Pattern)
    requires Sound(o, q) && !Hollow(q.fast) && RepeatPattern(q).Some?
    ensures Sound(o, RepeatPattern(q).value)
  {
    RepSoundIff(o, q);
    PlainSound(o, RepeatPattern(q).value.chain);
  }

  /** No optional or repeated operand has a hollow check. */
  predicate Admissible(e: Expr)
  {
    match e
    case Seq(a, b) => Admissible(a) && Admissible(b)
    case Either(a, b) => Admissible(a) && Admissible(b)
    case Below(a, b) => Admissible(a) && Admissible(b)
    case Optional(a) => Admissible(a) && (Build(a).Some? ==> !Hollow(Build(a).value.fast))
    case Repeated(a) => Admissible(a) && (Build(a).Some? ==> !Hollow(Build(a).value.fast))
    case Negated(a) => Admissible(a)
    case Ahead(a) => Admissible(a)
    case NotAhead(a) => Admissible(a)
    case Named(a, _) => Admissible(a)
    case Checked(a, _) => Admissible(a)
    case _ => true
  }

  /** The check of every pattern the combinators build is sound, unless a hollow check was made optional. */
  lemma {:induction false} FastPatternSound(o: Oracle, e: Expr)
    requires Admissible(e) && Build(e).Some?
    ensures Sound(o, Build(e).value)
  {
    match e
    case Seq(a, b) =>
      FastPatternSound(o, a);
      FastPatternSound(o, b);
      var l, r := Build(a).value, Build(b).value;
      SeqSound(o, l, r, Append(l.chain, r.chain).value);
    case Either(a, b) =>
      FastPatternSound(o, a);
      FastPatternSound(o, b);
      ChoiceSound(o, Build(a).value, Build(b).value);
    case Below(a, b) =>
      FastPatternSound(o, a);
      BelowSound(o, Build(a).value, Build(b).value.chain);
    case Optional(a) =>
      FastPatternSound(o, a);
      OptSoundIff(o, Build(a).value);
    case Repeated(a) =>
      FastPatternSound(o, a);
      RepeatSound(o, Build(a).value);
    case Negated(a) => PlainSound(o, Build(e).value.chain);
    case Ahead(a) => PlainSound(o, Build(e).value.chain);
    case NotAhead(a) => PlainSound(o, Build(e).value.chain);
    case Named(a, name) =>
      FastPatternSound(o, a);
      NamedSound(o, Build(a).value, name);
    case Checked(a, id) =>
      FastPatternSound(o, a);
      CheckedSound(o, Build(a).value, id);
    case _ => LeafSound(o, e);
  }

  /** Where a pattern matches at a child, its check lets it be tried there. */
  lemma SoundAllows(o: Oracle, q: Pattern, p: Parent, i: nat, env: Env)
    requires Sound(o, q) && i < |p.children| && MatchChain(o, q.chain, p, i, env).Success?
    ensures q.fast.Allows(p.kind, p.children[i].kind)
  {
    assert Explains(q.fast, p, i, MatchChain(o, q.chain, p, i, env).end);
  }

  /** In(x) before any child, made optional, matches under every parent, yet its check still demands x. */
  lemma OptionalParentMissed(o: Oracle, x: Kind, y: Kind)
    requires x != y
    ensures var e := Optional(Seq(In([x]), Any));
            && Build(e).Some? && !Admissible(e)
            && (var p := Parent(y, [Node(y, "", [])], []);
                MatchChain(o, Build(e).value.chain, p, 0, map[]).Success? && !Build(e).value.fast.Allows(y, y))
  {
    var inner := Seq(In([x]), Any);
    var p := Parent(y, [Node(y, "", [])], []);
    assert Build(In([x])).Some? && Build(In([x])).value.fast.parents == {x};
    assert Build(Any) == Some(Pattern(End(Anything), MATCH_ANY));
    var c := Link(Inside([x]), End(Anything));
    assert Append(End(Inside([x])), End(Anything)) == Some(c);
    assert Build(inner) == Some(Pattern(c, FastPattern({}, {x}, false)));
    assert MatchChain(o, c, p, 0, map[]).Fail?;
    assert MatchShape(o, Opt(c), p, 0, map[]).Success?;
  }
}
