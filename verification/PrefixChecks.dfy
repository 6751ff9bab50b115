// The shadowing analysis of checker.h: a rule pattern that matches wherever a
// later one does makes the later rule unreachable.

module PrefixChecks {
  import opened Options
  import opened TreePatterns

  // ---------------------------------------------------------------------
  // Patterns as lists
  // ---------------------------------------------------------------------

  /** The parts of a group that remain to be looked at. */
  datatype Parts = Nil | Cons(head: Shape, tail: Parts)

  function PartsOf(c: Chain, rest: Parts): Parts
  {
    match c
    case End(s) => Cons(s, rest)
    case Link(s, next) => Cons(s, PartsOf(next, rest))
  }

  function ShapeSize(s: Shape): (n: nat)
    ensures n > 0
  {
    match s
    case Cap(_, c) => Size(c) + 1
    case Opt(c) => Size(c) + 1
    case Rep(c) => Size(c) + 1
    case Not(c) => Size(c) + 1
    case Choice(a, b) => Size(a) + Size(b) + 1
    case Children(a, b) => Size(a) + Size(b) + 1
    case Pred(c) => Size(c) + 1
    case NegPred(c) => Size(c) + 1
    case Action(c, _) => Size(c) + 1
    case _ => 1
  }

  function Size(c: Chain): (n: nat)
    ensures n > 0
  {
    ShapeSize(c.shape) + if c.Link? then Size(c.next) else 0
  }

  function Total(ps: Parts): nat
  {
    if ps.Nil? then 0 else ShapeSize(ps.head) + Total(ps.tail)
  }

  lemma {:induction false} PartsTotal(c: Chain, rest: Parts)
    ensures Total(PartsOf(c, rest)) == Size(c) + Total(rest)
    decreases c
  {
    if c.Link? {
      PartsTotal(c.next, rest);
    }
  }

  /** Captures in front are opened. */
  function Front(ps: Parts): (r: Parts)
    ensures r.Cons? ==> !r.head.Cap?
    ensures r.Nil? <==> ps.Nil?
    ensures Total(r) <= Total(ps)
    decreases Total(ps)
  {
    if ps.Cons? && ps.head.Cap? then
      PartsTotal(ps.head.inner, ps.tail);
      Front(PartsOf(ps.head.inner, ps.tail))
    else ps
  }

  // ---------------------------------------------------------------------
  // How many nodes a pattern matches
  // ---------------------------------------------------------------------

  datatype Multiplicity = Zero | One | Unknown

  function Sum(a: Multiplicity, b: Multiplicity): Multiplicity
  {
    if a == Zero then b else if b == Zero then a else Unknown
  }

  function ShapeMultiplicity(s: Shape): Multiplicity
  {
    match s
    case First => Zero
    case Last => Zero
    case Inside(_) => Zero
    case InsideStar(_) => Zero
    case Pred(_) => Zero
    case NegPred(_) => Zero
    case Anything => One
    case RegexMatch(_, _) => One
    case TokenMatch(_) => One
    case Not(_) => One
    case Opt(_) => Unknown
    case Rep(_) => Unknown
    case Children(a, _) => MultiplicityOf(a, Zero)
    case Cap(_, c) => MultiplicityOf(c, Zero)
    case Action(c, _) => MultiplicityOf(c, Zero)
    case Choice(a, b) => if MultiplicityOf(a, Zero) == MultiplicityOf(b, Zero) then MultiplicityOf(a, Zero) else Unknown
  }

  /** The multiplicity of a group after parts of multiplicity `sum`. */
  function MultiplicityOf(c: Chain, sum: Multiplicity): Multiplicity
  {
    var m := Sum(sum, ShapeMultiplicity(c.shape));
    if c.End? then m else MultiplicityOf(c.next, m)
  }

  /** The types of the one node a pattern matches; none if that cannot be told. */
  function ShapeTokens(s: Shape): seq<Kind>
  {
    match s
    case Cap(_, c) => TokensOf(c, [])
    case Children(a, _) => TokensOf(a, [])
    case TokenMatch(types) => types
    case RegexMatch(t, _) => [t]
    case _ => []
  }

  function TokensOf(c: Chain, tokens: seq<Kind>): seq<Kind>
  {
    var m := ShapeMultiplicity(c.shape);
    if m == Zero then if c.End? then tokens else TokensOf(c.next, tokens)
    else if m == One && tokens == [] then if c.End? then ShapeTokens(c.shape) else TokensOf(c.next, ShapeTokens(c.shape))
    else []
  }

  predicate Subset(a: seq<Kind>, b: seq<Kind>)
  {
    forall t :: t in a ==> t in b
  }

  // ---------------------------------------------------------------------
  // Patterns that pass the checks on single patterns
  // ---------------------------------------------------------------------

  predicate ShapeChecked(s: Shape)
  {
    match s
    case Cap(_, c) => Checked(c) && MultiplicityOf(c, Zero) != Zero
    case Opt(c) => Checked(c)
    case Rep(c) => Checked(c) && !Binds(c) && MultiplicityOf(c, Zero) != Zero
    case Not(c) => Checked(c) && !Binds(c) && MultiplicityOf(c, Zero) == One
    case Choice(a, b) => Checked(a) && Checked(b)
    case Children(a, b) => Checked(a) && Checked(b) && MultiplicityOf(a, Zero) == One
    case Pred(c) => Checked(c) && !Binds(c)
    case NegPred(c) => Checked(c) && !Binds(c)
    case Action(c, _) => Checked(c)
    case _ => true
  }

  predicate Checked(c: Chain)
  {
    ShapeChecked(c.shape) && (c.Link? ==> !c.shape.Last? && Checked(c.next))
  }

  predicate PartsChecked(ps: Parts)
  {
    ps.Cons? ==> ShapeChecked(ps.head) && PartsChecked(ps.tail)
  }

  lemma {:induction false} CheckedParts(c: Chain, rest: Parts)
    requires Checked(c) && PartsChecked(rest)
    ensures PartsChecked(PartsOf(c, rest))
    decreases c
  {
    if c.Link? {
      CheckedParts(c.next, rest);
    }
  }

  lemma {:induction false} FrontChecked(ps: Parts)
    requires PartsChecked(ps)
    ensures PartsChecked(Front(ps))
    decreases Total(ps)
  {
    if ps.Cons? && ps.head.Cap? {
      PartsTotal(ps.head.inner, ps.tail);
      CheckedParts(ps.head.inner, ps.tail);
      FrontChecked(PartsOf(ps.head.inner, ps.tail));
    }
  }

  // ---------------------------------------------------------------------
  // The analysis
  // ---------------------------------------------------------------------

  /** The analysis says yes or no, or it walks off the end of the pattern. */
  datatype Verdict = Yes | No | OffTheEnd

  function And(a: Verdict, b: Verdict): Verdict
  {
    if a == Yes then b else a
  }

  /** A part that only looks at the position. */
  predicate Positional(s: Shape)
  {
    s.Inside? || s.InsideStar? || s.First? || s.Last?
  }

  /** The first part that may match a node. */
  function SkipZero(ps: Parts): (r: Parts)
    ensures Total(r) <= Total(ps)
    ensures r.Cons? ==> ShapeMultiplicity(r.head) != Zero
  {
    if ps.Cons? && ShapeMultiplicity(ps.head) == Zero then SkipZero(ps.tail) else ps
  }

  /** Whether the prefix is found to match wherever the pattern does. */
  function Includes(prefix: Parts, pattern: Parts): Verdict
    decreases Total(prefix) + Total(pattern), 1
  {
    if prefix.Nil? then Yes else if pattern.Nil? then No else FrontIncludes(Front(prefix), Front(pattern))
  }

  function FrontIncludes(ps: Parts, qs: Parts): Verdict
    requires ps.Cons? && qs.Cons?
    decreases Total(ps) + Total(qs), 0
  {
    if ps.head.Inside? then
      if qs.head.Inside? && Subset(qs.head.types, ps.head.types) then Includes(ps.tail, qs.tail) else No
    else if ps.head.InsideStar? then
      if qs.head.InsideStar? && Subset(qs.head.types, ps.head.types) then Includes(ps.tail, qs.tail) else No
    else if ps.head.First? || ps.head.Last? then
      if qs.head == ps.head then Includes(ps.tail, qs.tail) else No
    else if Positional(qs.head) then
      Includes(ps, qs.tail)
    else
      match ps.head
      case TokenMatch(types) =>
        var tokens := ShapeTokens(qs.head);
        if tokens != [] && Subset(tokens, types) then Includes(ps.tail, qs.tail) else No
      case Children(a, b) =>
        if qs.head.Children? then
          And(GroupIncludes(a, qs.head.inner), And(GroupIncludes(b, qs.head.below), Includes(ps.tail, qs.tail)))
        else No
      case Anything =>
        var rest := SkipZero(qs);
        if rest.Nil? then OffTheEnd
        else if ShapeMultiplicity(rest.head) == One then Includes(ps.tail, rest.tail)
        else No
      case Rep(c) =>
        if qs.head.Rep? then
          And(GroupIncludes(c, qs.head.inner), And(GroupIncludes(qs.head.inner, c), Includes(ps.tail, qs.tail)))
        else No
      case Opt(c) =>
        if qs.head.Opt? then
          And(GroupIncludes(c, qs.head.inner), And(GroupIncludes(qs.head.inner, c), Includes(ps.tail, qs.tail)))
        else No
      case _ => No
  }

  function GroupIncludes(a: Chain, b: Chain): Verdict
    decreases Size(a) + Size(b), 2
  {
    PartsTotal(a, Nil);
    PartsTotal(b, Nil);
    Includes(PartsOf(a, Nil), PartsOf(b, Nil))
  }

  // ---------------------------------------------------------------------
  // What the parts match
  // ---------------------------------------------------------------------

  /** Where the match of one part ends. */
  ghost function PartEnd(o: Oracle, s: Shape, p: Parent, i: nat): (end: Option<nat>)
    requires i <= |p.children|
    ensures end.Some? ==> i <= end.value <= |p.children|
  {
    var r := MatchShape(o, s, p, i, map[]);
    if r.Fail? then None else Some(r.end)
  }

  ghost function GroupEnd(o: Oracle, c: Chain, p: Parent, i: nat): (end: Option<nat>)
    requires i <= |p.children|
    ensures end.Some? ==> i <= end.value <= |p.children|
  {
    var r := MatchChain(o, c, p, i, map[]);
    if r.Fail? then None else Some(r.end)
  }

  ghost function PartsEnd(o: Oracle, ps: Parts, p: Parent, i: nat): (end: Option<nat>)
    requires i <= |p.children|
    ensures end.Some? ==> i <= end.value <= |p.children|
    decreases ps
  {
    if ps.Nil? then Some(i)
    else
      var e := PartEnd(o, ps.head, p, i);
      if e.None? then None else PartsEnd(o, ps.tail, p, e.value)
  }

  lemma {:induction false} GroupAnyEnv(o: Oracle, c: Chain, p: Parent, i: nat, e: Env)
    requires i <= |p.children|
    ensures var r := MatchChain(o, c, p, i, e); GroupEnd(o, c, p, i) == if r.Fail? then None else Some(r.end)
  {
    EndIgnoresEnv(o, c, p, i, e, map[]);
  }

  /** A group is its parts one after the other. */
  lemma {:induction false} GroupIsParts(o: Oracle, c: Chain, rest: Parts, p: Parent, i: nat)
    requires Checked(c) && i <= |p.children|
    ensures var e := GroupEnd(o, c, p, i);
            PartsEnd(o, PartsOf(c, rest), p, i) == if e.None? then None else PartsEnd(o, rest, p, e.value)
    decreases c
  {
    var e := PartEnd(o, c.shape, p, i);
    if e.Some? && c.Link? {
      GroupIsParts(o, c.next, rest, p, e.value);
      var r := MatchShape(o, c.shape, p, i, map[]);
      GroupAnyEnv(o, c.next, p, r.end, r.env);
    }
  }

  lemma {:induction false} GroupAlone(o: Oracle, c: Chain, p: Parent, i: nat)
    requires Checked(c) && i <= |p.children|
    ensures PartsEnd(o, PartsOf(c, Nil), p, i) == GroupEnd(o, c, p, i)
  {
    GroupIsParts(o, c, Nil, p, i);
  }

  /** Opening captures does not change what is matched. */
  lemma {:induction false} FrontEnd(o: Oracle, ps: Parts, p: Parent, i: nat)
    requires PartsChecked(ps) && i <= |p.children|
    ensures PartsEnd(o, Front(ps), p, i) == PartsEnd(o, ps, p, i)
    decreases Total(ps)
  {
    if ps.Cons? && ps.head.Cap? {
      var c := ps.head.inner;
      PartsTotal(c, ps.tail);
      CheckedParts(c, ps.tail);
      FrontEnd(o, PartsOf(c, ps.tail), p, i);
      GroupIsParts(o, c, ps.tail, p, i);
    }
  }

  // ---------------------------------------------------------------------
  // Multiplicities and types are right
  // ---------------------------------------------------------------------

  /** The match from `i` to `end` is as long as the multiplicity says. */
  predicate Spans(m: Multiplicity, i: nat, end: nat)
  {
    match m
    case Zero => end == i
    case One => end == i + 1
    case Unknown => true
  }

  lemma {:induction false} PartSpans(o: Oracle, s: Shape, p: Parent, i: nat)
    requires ShapeChecked(s) && i <= |p.children|
    ensures PartEnd(o, s, p, i).Some? ==> Spans(ShapeMultiplicity(s), i, PartEnd(o, s, p, i).value)
    decreases s, 0
  {
    match s
    case Cap(_, c) => GroupSpans(o, c, p, i, Zero, i);
    case Children(a, _) => GroupSpans(o, a, p, i, Zero, i);
    case Action(c, _) => GroupSpans(o, c, p, i, Zero, i);
    case Choice(a, b) =>
      GroupSpans(o, a, p, i, Zero, i);
      GroupSpans(o, b, p, i, Zero, i);
    case _ =>
  }

  lemma {:induction false} GroupSpans(o: Oracle, c: Chain, p: Parent, i: nat, sum: Multiplicity, from: nat)
    requires Checked(c) && from <= i <= |p.children| && Spans(sum, from, i)
    ensures GroupEnd(o, c, p, i).Some? ==> Spans(MultiplicityOf(c, sum), from, GroupEnd(o, c, p, i).value)
    decreases c, 1
  {
    PartSpans(o, c.shape, p, i);
    var r := MatchShape(o, c.shape, p, i, map[]);
    if c.Link? && r.Success? {
      GroupAnyEnv(o, c.next, p, r.end, r.env);
      GroupSpans(o, c.next, p, r.end, Sum(sum, ShapeMultiplicity(c.shape)), from);
    }
  }

  /** After the one node, only parts that match none. */
  lemma {:induction false} RestIsZero(c: Chain, tokens: seq<Kind>)
    requires MultiplicityOf(c, One) == One
    ensures TokensOf(c, tokens) == tokens
    decreases c
  {
    if c.Link? {
      if ShapeMultiplicity(c.shape) != Zero {
        NeverOne(c.next);
      }
      RestIsZero(c.next, tokens);
    }
  }

  lemma {:induction false} NeverOne(c: Chain)
    ensures MultiplicityOf(c, Unknown) == Unknown
    decreases c
  {
    if c.Link? {
      NeverOne(c.next);
    }
  }

  /** A pattern of multiplicity one matches a node of one of its types, if it has any. */
  lemma {:induction false} PartTokens(o: Oracle, s: Shape, p: Parent, i: nat)
    requires ShapeChecked(s) && i <= |p.children| && ShapeMultiplicity(s) == One && ShapeTokens(s) != []
    requires PartEnd(o, s, p, i).Some?
    ensures i < |p.children| && p.children[i].kind in ShapeTokens(s)
    decreases s, 0
  {
    match s
    case Cap(_, c) => GroupTokens(o, c, p, i);
    case Children(a, _) => GroupTokens(o, a, p, i);
    case _ =>
  }

  lemma {:induction false} GroupTokens(o: Oracle, c: Chain, p: Parent, i: nat)
    requires Checked(c) && i <= |p.children| && MultiplicityOf(c, Zero) == One && TokensOf(c, []) != []
    requires GroupEnd(o, c, p, i).Some?
    ensures i < |p.children| && p.children[i].kind in TokensOf(c, [])
    decreases c, 1
  {
    PartSpans(o, c.shape, p, i);
    var m := ShapeMultiplicity(c.shape);
    if m == Zero {
      if c.Link? {
        var r := MatchShape(o, c.shape, p, i, map[]);
        GroupAnyEnv(o, c.next, p, r.end, r.env);
        GroupTokens(o, c.next, p, i);
      }
    } else if m == One {
      if c.Link? {
        RestIsZero(c.next, ShapeTokens(c.shape));
      }
      PartTokens(o, c.shape, p, i);
    }
  }

  // ---------------------------------------------------------------------
  // Patterns that include each other
  // ---------------------------------------------------------------------

  /** Parts that were found to include each other. */
  predicate Alike(x: Shape, y: Shape)
  {
    match x
    case Inside(types) => y.Inside? && Subset(types, y.types) && Subset(y.types, types)
    case InsideStar(types) => y.InsideStar? && Subset(types, y.types) && Subset(y.types, types)
    case TokenMatch(types) => y.TokenMatch? && Subset(types, y.types) && Subset(y.types, types)
    case First => y.First?
    case Last => y.Last?
    case Anything => y.Anything?
    case Children(a, b) =>
      && y.Children? && GroupIncludes(a, y.inner) == GroupIncludes(y.inner, a) == Yes
      && GroupIncludes(b, y.below) == GroupIncludes(y.below, b) == Yes
    case Rep(c) => y.Rep? && GroupIncludes(c, y.inner) == GroupIncludes(y.inner, c) == Yes
    case Opt(c) => y.Opt? && GroupIncludes(c, y.inner) == GroupIncludes(y.inner, c) == Yes
    case _ => false
  }

  lemma {:induction false} MutualHeads(ps: Parts, qs: Parts)
    requires ps.Cons? && qs.Cons? && FrontIncludes(ps, qs) == Yes && FrontIncludes(qs, ps) == Yes
    ensures Alike(ps.head, qs.head) && Includes(ps.tail, qs.tail) == Yes && Includes(qs.tail, ps.tail) == Yes
  {
  }

  /** What the children pattern of a node matches. */
  lemma {:induction false} ChildrenEnd(o: Oracle, a: Chain, b: Chain, p: Parent, i: nat)
    requires i <= |p.children|
    ensures PartEnd(o, Children(a, b), p, i) ==
            if GroupEnd(o, a, p, i).None? || i == |p.children| || GroupEnd(o, b, p.Inside(i), 0).None? then None
            else GroupEnd(o, a, p, i)
  {
    var r := MatchChain(o, a, p, i, map[]);
    if r.Success? && i < |p.children| {
      GroupAnyEnv(o, b, p.Inside(i), 0, r.env);
    }
  }

  /** Two groups that end their matches inside one parent in the same places. */
  ghost predicate SameGroups(o: Oracle, a: Chain, b: Chain, p: Parent)
  {
    forall i: nat {:trigger GroupEnd(o, a, p, i)} {:trigger GroupEnd(o, b, p, i)} ::
      i <= |p.children| ==> GroupEnd(o, a, p, i) == GroupEnd(o, b, p, i)
  }

  lemma {:induction false} RepeatSame(o: Oracle, a: Chain, b: Chain, p: Parent, i: nat)
    requires i <= |p.children| && SameGroups(o, a, b, p)
    ensures RepeatEnd(o, a, p, i) == RepeatEnd(o, b, p, i)
    decreases |p.children| - i
  {
    assert GroupEnd(o, a, p, i) == GroupEnd(o, b, p, i);
    if i < |p.children| && GroupEnd(o, a, p, i).Some? && GroupEnd(o, a, p, i).value > i {
      RepeatSame(o, a, b, p, GroupEnd(o, a, p, i).value);
    }
  }

  lemma {:induction false} GroupMutual(o: Oracle, a: Chain, b: Chain, p: Parent)
    requires Checked(a) && Checked(b) && GroupIncludes(a, b) == Yes && GroupIncludes(b, a) == Yes
    ensures SameGroups(o, a, b, p)
    decreases Size(a) + Size(b), 3
  {
    PartsTotal(a, Nil);
    PartsTotal(b, Nil);
    CheckedParts(a, Nil);
    CheckedParts(b, Nil);
    forall i: nat | i <= |p.children|
      ensures GroupEnd(o, a, p, i) == GroupEnd(o, b, p, i)
    {
      Mutual(o, PartsOf(a, Nil), PartsOf(b, Nil), p, i);
      GroupAlone(o, a, p, i);
      GroupAlone(o, b, p, i);
    }
  }

  lemma {:induction false} AlikeSame(o: Oracle, x: Shape, y: Shape, p: Parent, i: nat)
    requires ShapeChecked(x) && ShapeChecked(y) && Alike(x, y) && i <= |p.children|
    ensures PartEnd(o, x, p, i) == PartEnd(o, y, p, i)
    decreases ShapeSize(x) + ShapeSize(y), 0
  {
    match x
    case Children(a, b) =>
      GroupMutual(o, a, y.inner, p);
      ChildrenEnd(o, a, b, p, i);
      ChildrenEnd(o, y.inner, y.below, p, i);
      assert GroupEnd(o, a, p, i) == GroupEnd(o, y.inner, p, i);
      if i < |p.children| {
        GroupMutual(o, b, y.below, p.Inside(i));
        assert GroupEnd(o, b, p.Inside(i), 0) == GroupEnd(o, y.below, p.Inside(i), 0);
      }
    case Rep(c) =>
      GroupMutual(o, c, y.inner, p);
      RepeatSame(o, c, y.inner, p, i);
    case Opt(c) =>
      GroupMutual(o, c, y.inner, p);
      assert GroupEnd(o, c, p, i) == GroupEnd(o, y.inner, p, i);
    case _ =>
  }

  /** Patterns that are found to include each other end their matches in the same places. */
  lemma {:induction false} Mutual(o: Oracle, ps: Parts, qs: Parts, p: Parent, i: nat)
    requires PartsChecked(ps) && PartsChecked(qs) && Includes(ps, qs) == Yes && Includes(qs, ps) == Yes && i <= |p.children|
    ensures PartsEnd(o, ps, p, i) == PartsEnd(o, qs, p, i)
    decreases Total(ps) + Total(qs), 2
  {
    if ps.Cons? {
      FrontChecked(ps);
      FrontChecked(qs);
      FrontEnd(o, ps, p, i);
      FrontEnd(o, qs, p, i);
      FrontMutual(o, Front(ps), Front(qs), p, i);
    }
  }

  lemma {:induction false} FrontMutual(o: Oracle, ps: Parts, qs: Parts, p: Parent, i: nat)
    requires PartsChecked(ps) && PartsChecked(qs) && ps.Cons? && qs.Cons? && i <= |p.children|
    requires FrontIncludes(ps, qs) == Yes && FrontIncludes(qs, ps) == Yes
    ensures PartsEnd(o, ps, p, i) == PartsEnd(o, qs, p, i)
    decreases Total(ps) + Total(qs), 1
  {
    MutualHeads(ps, qs);
    AlikeSame(o, ps.head, qs.head, p, i);
    var e := PartEnd(o, ps.head, p, i);
    if e.Some? {
      Mutual(o, ps.tail, qs.tail, p, e.value);
    }
  }

  // ---------------------------------------------------------------------
  // The analysis is sound
  // ---------------------------------------------------------------------

  lemma {:induction false} SkipZeroEnd(o: Oracle, ps: Parts, p: Parent, i: nat)
    requires PartsChecked(ps) && i <= |p.children| && PartsEnd(o, ps, p, i).Some?
    ensures PartsChecked(SkipZero(ps)) && PartsEnd(o, SkipZero(ps), p, i) == PartsEnd(o, ps, p, i)
  {
    if ps.Cons? && ShapeMultiplicity(ps.head) == Zero {
      PartSpans(o, ps.head, p, i);
      SkipZeroEnd(o, ps.tail, p, i);
    }
  }

  lemma {:induction false} GroupSound(o: Oracle, a: Chain, b: Chain, p: Parent, i: nat)
    requires Checked(a) && Checked(b) && GroupIncludes(a, b) == Yes && i <= |p.children| && GroupEnd(o, b, p, i).Some?
    ensures GroupEnd(o, a, p, i).Some?
    decreases Size(a) + Size(b), 3
  {
    PartsTotal(a, Nil);
    PartsTotal(b, Nil);
    CheckedParts(a, Nil);
    CheckedParts(b, Nil);
    GroupAlone(o, a, p, i);
    GroupAlone(o, b, p, i);
    Sound(o, PartsOf(a, Nil), PartsOf(b, Nil), p, i);
  }

  /** Where the pattern matches, so does a prefix that was found to be included. */
  lemma {:induction false} Sound(o: Oracle, ps: Parts, qs: Parts, p: Parent, i: nat)
    requires PartsChecked(ps) && PartsChecked(qs) && Includes(ps, qs) == Yes && i <= |p.children| && PartsEnd(o, qs, p, i).Some?
    ensures PartsEnd(o, ps, p, i).Some?
    decreases Total(ps) + Total(qs), 2
  {
    if ps.Cons? {
      FrontChecked(ps);
      FrontChecked(qs);
      FrontEnd(o, ps, p, i);
      FrontEnd(o, qs, p, i);
      FrontSound(o, Front(ps), Front(qs), p, i);
    }
  }

  /** The first part of the prefix matches as many nodes as the part of the pattern it was compared with. */
  lemma {:induction false} HeadSound(o: Oracle, ps: Parts, qs: Parts, p: Parent, i: nat)
    requires PartsChecked(ps) && PartsChecked(qs) && ps.Cons? && qs.Cons? && i <= |p.children|
    requires FrontIncludes(ps, qs) == Yes && !qs.head.Cap? && !ps.head.Anything? && (Positional(qs.head) ==> Positional(ps.head))
    requires PartEnd(o, qs.head, p, i).Some?
    ensures PartEnd(o, ps.head, p, i) == PartEnd(o, qs.head, p, i)
    ensures Includes(ps.tail, qs.tail) == Yes
    decreases Total(ps) + Total(qs), 0
  {
    match ps.head
    case TokenMatch(_) =>
      PartSpans(o, qs.head, p, i);
      PartTokens(o, qs.head, p, i);
    case Children(a, b) =>
      ChildrenSound(o, a, b, qs.head.inner, qs.head.below, p, i);
    case Rep(c) =>
      AlikeSame(o, ps.head, qs.head, p, i);
    case Opt(c) =>
      AlikeSame(o, ps.head, qs.head, p, i);
    case _ =>
  }

  lemma {:induction false} ChildrenSound(o: Oracle, a: Chain, b: Chain, c: Chain, d: Chain, p: Parent, i: nat)
    requires ShapeChecked(Children(a, b)) && ShapeChecked(Children(c, d)) && i <= |p.children|
    requires GroupIncludes(a, c) == Yes && GroupIncludes(b, d) == Yes && PartEnd(o, Children(c, d), p, i).Some?
    ensures PartEnd(o, Children(a, b), p, i) == PartEnd(o, Children(c, d), p, i)
    decreases Size(a) + Size(b) + Size(c) + Size(d), 4
  {
    ChildrenEnd(o, a, b, p, i);
    ChildrenEnd(o, c, d, p, i);
    GroupSound(o, a, c, p, i);
    GroupSound(o, b, d, p.Inside(i), 0);
    GroupSpans(o, a, p, i, Zero, i);
    GroupSpans(o, c, p, i, Zero, i);
  }

  lemma {:induction false} FrontSound(o: Oracle, ps: Parts, qs: Parts, p: Parent, i: nat)
    requires PartsChecked(ps) && PartsChecked(qs) && ps.Cons? && qs.Cons? && i <= |p.children|
    requires FrontIncludes(ps, qs) == Yes && !qs.head.Cap? && PartsEnd(o, qs, p, i).Some?
    ensures PartsEnd(o, ps, p, i).Some?
    decreases Total(ps) + Total(qs), 1
  {
    if Positional(qs.head) && !Positional(ps.head) {
      PartSpans(o, qs.head, p, i);
      Sound(o, ps, qs.tail, p, i);
    } else if ps.head.Anything? {
      var rest := SkipZero(qs);
      SkipZeroEnd(o, qs, p, i);
      PartSpans(o, rest.head, p, i);
      Sound(o, ps.tail, rest.tail, p, i + 1);
    } else {
      HeadSound(o, ps, qs, p, i);
      Sound(o, ps.tail, qs.tail, p, PartEnd(o, qs.head, p, i).value);
    }
  }

  // ---------------------------------------------------------------------
  // The checks on single patterns are needed
  // ---------------------------------------------------------------------

  /**
   * The checks on single patterns are needed: a parent pattern of two nodes
   * is taken for one node of the second one's type.
   */
  lemma UncheckedMisleads(o: Oracle)
    ensures var q := End(Children(Link(Anything, End(TokenMatch([1]))), End(First)));
            var p := Parent(0, [Node(0, "", []), Node(1, "", [])], []);
            && !Checked(q) && GroupIncludes(End(TokenMatch([1])), q) == Yes
            && GroupEnd(o, q, p, 0) == Some(2) && GroupEnd(o, End(TokenMatch([1])), p, 0) == None
  {
    var two := Link(Anything, End(TokenMatch([1])));
    var x := Children(two, End(First));
    var ps, qs := Cons(TokenMatch([1]), Nil), Cons(x, Nil);
    assert MultiplicityOf(End(TokenMatch([1])), One) == Unknown;
    assert MultiplicityOf(two, Zero) == MultiplicityOf(End(TokenMatch([1])), One);
    assert TokensOf(End(TokenMatch([1])), []) == [1];
    assert TokensOf(two, []) == TokensOf(End(TokenMatch([1])), []);
    assert PartsOf(End(TokenMatch([1])), Nil) == ps && PartsOf(End(x), Nil) == qs && Front(ps) == ps && Front(qs) == qs;
    assert FrontIncludes(ps, qs) == Includes(Nil, Nil) == Yes;
    var p := Parent(0, [Node(0, "", []), Node(1, "", [])], []);
    TwoNodes(o, p);
    ChildrenEnd(o, two, End(First), p, 0);
  }

  lemma TwoNodes(o: Oracle, p: Parent)
    requires p.children == [Node(0, "", []), Node(1, "", [])]
    ensures GroupEnd(o, Link(Anything, End(TokenMatch([1]))), p, 0) == Some(2)
    ensures GroupEnd(o, End(First), p.Inside(0), 0) == Some(0)
    ensures GroupEnd(o, End(TokenMatch([1])), p, 0) == None
  {
    assert MatchShape(o, Anything, p, 0, map[]) == Success(1, map[]);
    assert MatchChain(o, End(TokenMatch([1])), p, 1, map[]) == Success(2, map[]);
  }

  // ---------------------------------------------------------------------
  // The loop
  // ---------------------------------------------------------------------

  /** The groups that an iterator is inside of, each at the part it has come to, the innermost first. */
  datatype Groups = Outside | In(group: Chain, outer: Groups)

  /** What follows the parts that the groups have come to. */
  ghost function Following(g: Groups): Parts
  {
    match g
    case Outside => Nil
    case In(End(_), outer) => Following(outer)
    case In(Link(_, next), outer) => PartsOf(next, Following(outer))
  }

  ghost function Remaining(g: Groups): Parts
  {
    if g.Outside? then Nil else Cons(g.group.shape, Following(g))
  }

  lemma RemainingIn(c: Chain, outer: Groups)
    ensures Remaining(In(c, outer)) == PartsOf(c, Following(outer))
  {
  }

  /** Walks through a pattern, into groups and out of them. */
  class StackedIterator {
    var stack: Groups

    constructor (root: Chain)
      ensures stack == In(root, Outside)
    {
      stack := In(root, Outside);
    }

    method Push(group: Chain)
      modifies this
      ensures stack == In(group, old(stack))
    {
      stack := In(group, stack);
    }

    /** The next part; finished groups are left. */
    method Next()
      requires stack.In?
      modifies this
      ensures Remaining(stack) == old(Remaining(stack)).tail
    {
      while stack.In? && stack.group.End?
        invariant Following(stack) == old(Following(stack))
        decreases stack
      {
        stack := stack.outer;
      }
      if stack.In? {
        RemainingIn(stack.group.next, stack.outer);
        stack := In(stack.group.next, stack.outer);
      }
    }
  }

  lemma FrontOpens(c: Chain, tail: Parts, name: Name)
    ensures Front(PartsOf(c, tail)) == Front(Cons(Cap(name, c), tail))
    ensures Total(PartsOf(c, tail)) < Total(Cons(Cap(name, c), tail))
    ensures PartsOf(c, tail).Cons?
  {
    PartsTotal(c, tail);
  }

  /** The verdict on the two parts in front, where none of them is passed over. */
  function HeadVerdict(x: Shape, y: Shape): Verdict
  {
    match x
    case Inside(types) => if y.Inside? && Subset(y.types, types) then Yes else No
    case InsideStar(types) => if y.InsideStar? && Subset(y.types, types) then Yes else No
    case First => if y.First? then Yes else No
    case Last => if y.Last? then Yes else No
    case TokenMatch(types) => if ShapeTokens(y) != [] && Subset(ShapeTokens(y), types) then Yes else No
    case Children(a, b) => if y.Children? then And(GroupIncludes(a, y.inner), GroupIncludes(b, y.below)) else No
    case Rep(c) => if y.Rep? then And(GroupIncludes(c, y.inner), GroupIncludes(y.inner, c)) else No
    case Opt(c) => if y.Opt? then And(GroupIncludes(c, y.inner), GroupIncludes(y.inner, c)) else No
    case _ => No
  }

  lemma {:induction false} HeadFirst(ps: Parts, qs: Parts)
    requires ps.Cons? && qs.Cons? && !ps.head.Cap? && !qs.head.Cap?
    requires !ps.head.Anything? && (Positional(qs.head) ==> Positional(ps.head))
    ensures Includes(ps, qs) == And(HeadVerdict(ps.head, qs.head), Includes(ps.tail, qs.tail))
  {
  }

  lemma {:induction false} PartPassed(ps: Parts, qs: Parts)
    requires ps.Cons? && qs.Cons? && !ps.head.Cap? && !qs.head.Cap? && Positional(qs.head) && !Positional(ps.head)
    ensures Includes(ps, qs) == Includes(ps, qs.tail) && Total(qs.tail) < Total(qs)
  {
  }

  /** Compares the parts in front, with a recursive analysis of the groups in them. */
  method Compare(x: Shape, y: Shape) returns (v: Verdict)
    ensures v == HeadVerdict(x, y)
    decreases ShapeSize(x) + ShapeSize(y), 0
  {
    match x {
      case Inside(types) => v := if y.Inside? && Subset(y.types, types) then Yes else No;
      case InsideStar(types) => v := if y.InsideStar? && Subset(y.types, types) then Yes else No;
      case First => v := if y.First? then Yes else No;
      case Last => v := if y.Last? then Yes else No;
      case TokenMatch(types) =>
        var tokens := ShapeTokens(y);
        v := if tokens != [] && Subset(tokens, types) then Yes else No;
      case Children(a, b) =>
        if !y.Children? {
          return No;
        }
        v := IncludesPrefix(a, y.inner);
        if v == Yes {
          v := IncludesPrefix(b, y.below);
        }
      case Rep(c) =>
        if !y.Rep? {
          return No;
        }
        v := IncludesPrefix(c, y.inner);
        if v == Yes {
          v := IncludesPrefix(y.inner, c);
        }
      case Opt(c) =>
        if !y.Opt? {
          return No;
        }
        v := IncludesPrefix(c, y.inner);
        if v == Yes {
          v := IncludesPrefix(y.inner, c);
        }
      case _ => v := No;
    }
  }

  /** Passes over parts that match no node; they may be all there is. */
  method SkipZeros(it: StackedIterator)
    requires it.stack.In?
    modifies it
    ensures Remaining(it.stack) == SkipZero(old(Remaining(it.stack)))
  {
    while it.stack.In? && ShapeMultiplicity(it.stack.group.shape) == Zero
      invariant SkipZero(Remaining(it.stack)) == SkipZero(old(Remaining(it.stack)))
      decreases Total(Remaining(it.stack))
    {
      it.Next();
    }
  }

  /** Where the loop stands: the verdict on what remains is the one that is wanted. */
  ghost predicate Pending(ps: Groups, qs: Groups, wanted: Verdict, bound: nat)
  {
    Includes(Remaining(ps), Remaining(qs)) == wanted && Total(Remaining(ps)) + Total(Remaining(qs)) <= bound
  }

  /** One round, with the iterators inside their patterns; None means that the loop goes on. */
  method Advance(ps: StackedIterator, qs: StackedIterator, ghost wanted: Verdict, ghost bound: nat) returns (v: Option<Verdict>)
    requires ps != qs && ps.stack.In? && qs.stack.In? && Pending(ps.stack, qs.stack, wanted, bound)
    modifies ps, qs
    ensures v.Some? ==> v.value == wanted
    ensures v.None? ==> Pending(ps.stack, qs.stack, wanted, bound) &&
                        Total(Remaining(ps.stack)) + Total(Remaining(qs.stack)) < old(Total(Remaining(ps.stack)) + Total(Remaining(qs.stack)))
    decreases bound, 1
  {
    var x, y := ps.stack.group.shape, qs.stack.group.shape;
    v := None;
    if x.Cap? {
      FrontOpens(x.inner, Following(ps.stack), x.name);
      RemainingIn(x.inner, ps.stack);
      ps.Push(x.inner);
    } else if y.Cap? {
      FrontOpens(y.inner, Following(qs.stack), y.name);
      RemainingIn(y.inner, qs.stack);
      qs.Push(y.inner);
    } else if Positional(y) && !Positional(x) {
      PartPassed(Remaining(ps.stack), Remaining(qs.stack));
      qs.Next();
    } else if x.Anything? {
      v := AdvanceAny(ps, qs, wanted);
    } else {
      HeadFirst(Remaining(ps.stack), Remaining(qs.stack));
      var verdict := Compare(x, y);
      if verdict != Yes {
        return Some(verdict);
      }
      ps.Next();
      qs.Next();
    }
  }

  /** The prefix accepts any one node. */
  method AdvanceAny(ps: StackedIterator, qs: StackedIterator, ghost wanted: Verdict) returns (v: Option<Verdict>)
    requires ps != qs && ps.stack.In? && qs.stack.In? && ps.stack.group.shape.Anything?
    requires !qs.stack.group.shape.Cap? && !Positional(qs.stack.group.shape)
    requires Includes(Remaining(ps.stack), Remaining(qs.stack)) == wanted
    modifies ps, qs
    ensures v.Some? ==> v.value == wanted
    ensures v.None? ==> Includes(Remaining(ps.stack), Remaining(qs.stack)) == wanted
    ensures Total(Remaining(ps.stack)) <= old(Total(Remaining(ps.stack))) && Total(Remaining(qs.stack)) <= old(Total(Remaining(qs.stack)))
    ensures v.None? ==> Total(Remaining(ps.stack)) < old(Total(Remaining(ps.stack)))
  {
    SkipZeros(qs);
    if qs.stack.Outside? {
      return Some(OffTheEnd);
    }
    if ShapeMultiplicity(qs.stack.group.shape) != One {
      return Some(No);
    }
    ps.Next();
    qs.Next();
    return None;
  }

  /** The analysis of two groups, part by part. */
  method IncludesPrefix(prefix: Chain, pattern: Chain) returns (v: Verdict)
    ensures v == GroupIncludes(prefix, pattern)
    decreases Size(prefix) + Size(pattern), 2
  {
    var ps := new StackedIterator(prefix);
    var qs := new StackedIterator(pattern);
    ghost var wanted, bound := GroupIncludes(prefix, pattern), Size(prefix) + Size(pattern);
    PartsTotal(prefix, Nil);
    PartsTotal(pattern, Nil);
    RemainingIn(prefix, Outside);
    RemainingIn(pattern, Outside);
    while ps.stack.In? && qs.stack.In?
      invariant ps != qs && fresh(ps) && fresh(qs) && Pending(ps.stack, qs.stack, wanted, bound)
      decreases Total(Remaining(ps.stack)) + Total(Remaining(qs.stack))
    {
      var done := Advance(ps, qs, wanted, bound);
      if done.Some? {
        return done.value;
      }
    }
    return if ps.stack.Outside? then Yes else No;
  }

  /**
   * The first of two rules of a pass that the analysis reports as shadowing
   * the second really does: its pattern matches at every place where the
   * second one matches.
   */
  method Shadows(first: Chain, second: Chain) returns (reported: bool)
    requires Checked(first) && Checked(second)
    ensures reported ==> forall o, p: Parent, i: nat {:trigger GroupEnd(o, second, p, i)} ::
                           i <= |p.children| && GroupEnd(o, second, p, i).Some? ==> GroupEnd(o, first, p, i).Some?
  {
    var v := IncludesPrefix(first, second);
    reported := v == Yes;
    if reported {
      forall o, p: Parent, i: nat {:trigger GroupEnd(o, second, p, i)} | i <= |p.children| && GroupEnd(o, second, p, i).Some?
        ensures GroupEnd(o, first, p, i).Some?
      {
        GroupSound(o, first, second, p, i);
      }
    }
  }
}
