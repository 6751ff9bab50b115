// Where the shadowing analysis of checker.h walks off the end of a pattern:
// exactly the patterns for which some prefix makes it do so.

module PrefixEnds {
  import opened Options
  import opened TreePatterns
  import opened PrefixChecks

  // ---------------------------------------------------------------------
  // A pattern that is included is safe as a prefix
  // ---------------------------------------------------------------------

  /** What is found to be included never makes the analysis walk off its own end. */
  lemma {:induction false} YesThenInside(ps: Parts, qs: Parts)
    requires Includes(ps, qs) == Yes
    ensures Includes(qs, ps) != OffTheEnd
    decreases Total(ps) + Total(qs), 2
  {
    if ps.Cons? && qs.Cons? {
      FrontYesThenInside(Front(ps), Front(qs));
    }
  }

  lemma {:induction false} GroupYesThenInside(a: Chain, b: Chain)
    requires GroupIncludes(a, b) == Yes
    ensures GroupIncludes(b, a) != OffTheEnd
    decreases Size(a) + Size(b), 3
  {
    PartsTotal(a, Nil);
    PartsTotal(b, Nil);
    YesThenInside(PartsOf(a, Nil), PartsOf(b, Nil));
  }

  lemma {:induction false} FrontYesThenInside(ps: Parts, qs: Parts)
    requires ps.Cons? && qs.Cons? && FrontIncludes(ps, qs) == Yes
    ensures FrontIncludes(qs, ps) != OffTheEnd
    decreases Total(ps) + Total(qs), 1
  {
    if FrontIncludes(qs, ps) == OffTheEnd {
      match qs.head
      case Children(a, b) =>
        GroupYesThenInside(ps.head.inner, a);
        GroupYesThenInside(ps.head.below, b);
        YesThenInside(ps.tail, qs.tail);
      case _ =>
        YesThenInside(ps.tail, qs.tail);
    }
  }

  /** What is included both ways is included in itself. */
  lemma {:induction false} MutualSelf(ps: Parts, qs: Parts)
    requires Includes(ps, qs) == Yes && Includes(qs, ps) == Yes
    ensures Includes(qs, qs) == Yes
    decreases Total(ps) + Total(qs), 2
  {
    if qs.Cons? {
      FrontMutualSelf(Front(ps), Front(qs));
    }
  }

  lemma {:induction false} GroupMutualSelf(a: Chain, b: Chain)
    requires GroupIncludes(a, b) == Yes && GroupIncludes(b, a) == Yes
    ensures GroupIncludes(b, b) == Yes
    decreases Size(a) + Size(b), 3
  {
    PartsTotal(a, Nil);
    PartsTotal(b, Nil);
    MutualSelf(PartsOf(a, Nil), PartsOf(b, Nil));
  }

  lemma {:induction false} FrontMutualSelf(ps: Parts, qs: Parts)
    requires ps.Cons? && qs.Cons? && FrontIncludes(ps, qs) == Yes && FrontIncludes(qs, ps) == Yes
    ensures FrontIncludes(qs, qs) == Yes
    decreases Total(ps) + Total(qs), 1
  {
    MutualHeads(ps, qs);
    MutualSelf(ps.tail, qs.tail);
    match qs.head
    case Children(a, b) =>
      GroupMutualSelf(ps.head.inner, a);
      GroupMutualSelf(ps.head.below, b);
    case Rep(c) => GroupMutualSelf(ps.head.inner, c);
    case Opt(c) => GroupMutualSelf(ps.head.inner, c);
    case _ =>
  }

  // ---------------------------------------------------------------------
  // How far a prefix can get
  // ---------------------------------------------------------------------

  /** A wildcard finds a part that matches one node. */
  predicate AnyPasses(qs: Parts)
  {
    SkipZero(qs).Cons? && ShapeMultiplicity(SkipZero(qs).head) == One
  }

  /** Only the group itself can stand before an optional or repeated group. */
  predicate SelfIncluding(c: Chain) { GroupIncludes(c, c) == Yes }

  /** Some prefix is found to match wherever the pattern does. */
  predicate Comparable(qs: Parts)
    decreases Total(qs), 1
  {
    qs.Cons? && FrontComparable(Front(qs))
  }

  predicate FrontComparable(qs: Parts)
    requires qs.Cons?
    decreases Total(qs), 0
  {
    || Positional(qs.head) || AnyPasses(qs) || ShapeTokens(qs.head) != []
    || (qs.head.Children? && GroupComparable(qs.head.inner) && GroupComparable(qs.head.below))
    || ((qs.head.Rep? || qs.head.Opt?) && SelfIncluding(qs.head.inner))
  }

  predicate GroupComparable(c: Chain)
    decreases Size(c), 2
  {
    PartsTotal(c, Nil);
    Comparable(PartsOf(c, Nil))
  }

  /**
   * The analysis can be led to a place from which only lookahead follows in
   * the group: past parts that a prefix can get past, or inside one of them.
   */
  predicate Risky(qs: Parts)
    decreases Total(qs), 1
  {
    qs.Cons? && FrontRisky(Front(qs))
  }

  predicate FrontRisky(qs: Parts)
    requires qs.Cons?
    decreases Total(qs), 0
  {
    if Positional(qs.head) then Risky(qs.tail)
    else
      || SkipZero(qs).Nil?
      || (AnyPasses(qs) && Risky(SkipZero(qs).tail))
      || (ShapeTokens(qs.head) != [] && Risky(qs.tail))
      || (qs.head.Children? && ChildrenRisky(qs.head.inner, qs.head.below, qs.tail))
      || ((qs.head.Rep? || qs.head.Opt?) && (GroupRisky(qs.head.inner) || (SelfIncluding(qs.head.inner) && Risky(qs.tail))))
  }

  predicate ChildrenRisky(a: Chain, b: Chain, tail: Parts)
    decreases Size(a) + Size(b) + Total(tail), 3
  {
    || GroupRisky(a)
    || (GroupComparable(a) && (GroupRisky(b) || (GroupComparable(b) && Risky(tail))))
  }

  predicate GroupRisky(c: Chain)
    decreases Size(c), 2
  {
    PartsTotal(c, Nil);
    Risky(PartsOf(c, Nil))
  }

  // ---------------------------------------------------------------------
  // Only these
  // ---------------------------------------------------------------------

  lemma {:induction false} YesIsComparable(ps: Parts, qs: Parts)
    requires ps.Cons? && Includes(ps, qs) == Yes
    ensures Comparable(qs)
    decreases Total(ps) + Total(qs), 2
  {
    FrontYesIsComparable(Front(ps), Front(qs));
  }

  lemma {:induction false} GroupYesIsComparable(a: Chain, b: Chain)
    requires GroupIncludes(a, b) == Yes
    ensures GroupComparable(b)
    decreases Size(a) + Size(b), 3
  {
    PartsTotal(a, Nil);
    PartsTotal(b, Nil);
    YesIsComparable(PartsOf(a, Nil), PartsOf(b, Nil));
  }

  lemma {:induction false} FrontYesIsComparable(ps: Parts, qs: Parts)
    requires ps.Cons? && qs.Cons? && FrontIncludes(ps, qs) == Yes
    ensures FrontComparable(qs)
    decreases Total(ps) + Total(qs), 1
  {
    if !Positional(qs.head) {
      match ps.head
      case Children(a, b) =>
        GroupYesIsComparable(a, qs.head.inner);
        GroupYesIsComparable(b, qs.head.below);
      case Rep(c) => GroupMutualSelf(c, qs.head.inner);
      case Opt(c) => GroupMutualSelf(c, qs.head.inner);
      case _ =>
    }
  }

  /** Whatever the prefix, the analysis walks off the end of risky patterns only. */
  lemma {:induction false} OffIsRisky(ps: Parts, qs: Parts)
    requires Includes(ps, qs) == OffTheEnd
    ensures Risky(qs)
    decreases Total(ps) + Total(qs), 2
  {
    FrontOffIsRisky(Front(ps), Front(qs));
  }

  lemma {:induction false} GroupOffIsRisky(a: Chain, b: Chain)
    requires GroupIncludes(a, b) == OffTheEnd
    ensures GroupRisky(b)
    decreases Size(a) + Size(b), 3
  {
    PartsTotal(a, Nil);
    PartsTotal(b, Nil);
    OffIsRisky(PartsOf(a, Nil), PartsOf(b, Nil));
  }

  lemma {:induction false} FrontOffIsRisky(ps: Parts, qs: Parts)
    requires ps.Cons? && qs.Cons? && !qs.head.Cap? && FrontIncludes(ps, qs) == OffTheEnd
    ensures FrontRisky(qs)
    decreases Total(ps) + Total(qs), 1
  {
    if Positional(qs.head) {
      OffIsRisky(if Positional(ps.head) then ps.tail else ps, qs.tail);
    } else {
      match ps.head
      case Anything =>
        if SkipZero(qs).Cons? {
          OffIsRisky(ps.tail, SkipZero(qs).tail);
        }
      case TokenMatch(_) => OffIsRisky(ps.tail, qs.tail);
      case Children(a, b) => ChildrenOffIsRisky(a, b, ps.tail, qs.head.inner, qs.head.below, qs.tail);
      case Rep(c) => SameOffIsRisky(c, ps.tail, qs.head.inner, qs.tail);
      case Opt(c) => SameOffIsRisky(c, ps.tail, qs.head.inner, qs.tail);
    }
  }

  lemma {:induction false} ChildrenOffIsRisky(a: Chain, b: Chain, ps: Parts, c: Chain, d: Chain, qs: Parts)
    requires And(GroupIncludes(a, c), And(GroupIncludes(b, d), Includes(ps, qs))) == OffTheEnd
    ensures ChildrenRisky(c, d, qs)
    decreases Size(a) + Size(b) + Total(ps) + Size(c) + Size(d) + Total(qs), 4
  {
    if GroupIncludes(a, c) == OffTheEnd {
      GroupOffIsRisky(a, c);
    } else {
      GroupYesIsComparable(a, c);
      if GroupIncludes(b, d) == OffTheEnd {
        GroupOffIsRisky(b, d);
      } else {
        GroupYesIsComparable(b, d);
        OffIsRisky(ps, qs);
      }
    }
  }

  lemma {:induction false} SameOffIsRisky(a: Chain, ps: Parts, b: Chain, qs: Parts)
    requires And(GroupIncludes(a, b), And(GroupIncludes(b, a), Includes(ps, qs))) == OffTheEnd
    ensures GroupRisky(b) || (SelfIncluding(b) && Risky(qs))
    decreases Size(a) + Total(ps) + Size(b) + Total(qs), 4
  {
    if GroupIncludes(a, b) == OffTheEnd {
      GroupOffIsRisky(a, b);
    } else {
      GroupYesThenInside(a, b);
      GroupMutualSelf(a, b);
      OffIsRisky(ps, qs);
    }
  }

  // ---------------------------------------------------------------------
  // All of these
  // ---------------------------------------------------------------------

  /** A list of parts as a group. */
  function ChainOf(ps: Parts): (c: Chain)
    requires ps.Cons?
    ensures PartsOf(c, Nil) == ps
  {
    if ps.tail.Nil? then End(ps.head) else Link(ps.head, ChainOf(ps.tail))
  }

  /** A prefix of one part that is included in the pattern. */
  lemma {:induction false} ComparableWitness(qs: Parts) returns (x: Shape)
    requires Comparable(qs)
    ensures !x.Cap? && Includes(Cons(x, Nil), qs) == Yes
    decreases Total(qs), 1
  {
    var f := Front(qs);
    x := FrontComparableWitness(f);
    assert Includes(Cons(x, Nil), qs) == FrontIncludes(Cons(x, Nil), f);
  }

  lemma {:induction false} GroupComparableWitness(b: Chain) returns (a: Chain)
    requires GroupComparable(b)
    ensures GroupIncludes(a, b) == Yes
    decreases Size(b), 2
  {
    PartsTotal(b, Nil);
    var x := ComparableWitness(PartsOf(b, Nil));
    a := End(x);
    assert PartsOf(a, Nil) == Cons(x, Nil);
  }

  lemma {:induction false} FrontComparableWitness(qs: Parts) returns (x: Shape)
    requires qs.Cons? && !qs.head.Cap? && FrontComparable(qs)
    ensures !x.Cap? && FrontIncludes(Cons(x, Nil), qs) == Yes
    decreases Total(qs), 0
  {
    var q := qs.head;
    if Positional(q) || ((q.Rep? || q.Opt?) && SelfIncluding(q.inner)) {
      x := q;
    } else if AnyPasses(qs) {
      x := Anything;
    } else if ShapeTokens(q) != [] {
      x := TokenMatch(ShapeTokens(q));
    } else {
      var a := GroupComparableWitness(q.inner);
      var b := GroupComparableWitness(q.below);
      x := Children(a, b);
    }
  }

  /** A prefix that leads the analysis off the end. */
  lemma {:induction false} RiskyWitness(qs: Parts) returns (ps: Parts)
    requires Risky(qs)
    ensures ps.Cons? && !ps.head.Cap? && !Positional(ps.head) && Includes(ps, qs) == OffTheEnd
    decreases Total(qs), 2
  {
    ps := FrontRiskyWitness(Front(qs));
    assert Includes(ps, qs) == FrontIncludes(ps, Front(qs));
  }

  lemma {:induction false} GroupRiskyWitness(b: Chain) returns (a: Chain)
    requires GroupRisky(b)
    ensures GroupIncludes(a, b) == OffTheEnd
    decreases Size(b), 3
  {
    PartsTotal(b, Nil);
    var ps := RiskyWitness(PartsOf(b, Nil));
    a := ChainOf(ps);
  }

  lemma {:induction false} FrontRiskyWitness(qs: Parts) returns (ps: Parts)
    requires qs.Cons? && !qs.head.Cap? && FrontRisky(qs)
    ensures ps.Cons? && !ps.head.Cap? && !Positional(ps.head) && FrontIncludes(ps, qs) == OffTheEnd
    decreases Total(qs), 1
  {
    var q := qs.head;
    if Positional(q) {
      ps := RiskyWitness(qs.tail);
    } else if SkipZero(qs).Nil? {
      ps := Cons(Anything, Nil);
    } else if AnyPasses(qs) && Risky(SkipZero(qs).tail) {
      var rest := RiskyWitness(SkipZero(qs).tail);
      ps := Cons(Anything, rest);
    } else if ShapeTokens(q) != [] && Risky(qs.tail) {
      var rest := RiskyWitness(qs.tail);
      ps := Cons(TokenMatch(ShapeTokens(q)), rest);
    } else if q.Children? {
      ps := ChildrenRiskyWitness(q.inner, q.below, qs.tail);
    } else {
      ps := SameRiskyWitness(qs);
    }
  }

  lemma {:induction false} ChildrenRiskyWitness(c: Chain, d: Chain, qs: Parts) returns (ps: Parts)
    requires ChildrenRisky(c, d, qs)
    ensures ps.Cons? && ps.head.Children?
    ensures And(GroupIncludes(ps.head.inner, c), And(GroupIncludes(ps.head.below, d), Includes(ps.tail, qs))) == OffTheEnd
    decreases Size(c) + Size(d) + Total(qs), 3
  {
    if GroupRisky(c) {
      var a := GroupRiskyWitness(c);
      ps := Cons(Children(a, d), Nil);
    } else {
      var a := GroupComparableWitness(c);
      if GroupRisky(d) {
        var b := GroupRiskyWitness(d);
        ps := Cons(Children(a, b), Nil);
      } else {
        var b := GroupComparableWitness(d);
        var rest := RiskyWitness(qs);
        ps := Cons(Children(a, b), rest);
      }
    }
  }

  lemma {:induction false} SameRiskyWitness(qs: Parts) returns (ps: Parts)
    requires qs.Cons? && (qs.head.Rep? || qs.head.Opt?)
    requires GroupRisky(qs.head.inner) || (SelfIncluding(qs.head.inner) && Risky(qs.tail))
    ensures ps.Cons? && (ps.head.Rep? || ps.head.Opt?) && FrontIncludes(ps, qs) == OffTheEnd
    decreases Total(qs), 0
  {
    var c := qs.head.inner;
    if GroupRisky(c) {
      var a := GroupRiskyWitness(c);
      ps := Cons(if qs.head.Rep? then Rep(a) else Opt(a), Nil);
    } else {
      var rest := RiskyWitness(qs.tail);
      ps := Cons(qs.head, rest);
    }
  }

  /** Some prefix makes the analysis read past the end of a pattern exactly if the pattern is risky. */
  lemma {:induction false} WalksOffIff(b: Chain)
    ensures (exists a :: GroupIncludes(a, b) == OffTheEnd) <==> GroupRisky(b)
  {
    if a :| GroupIncludes(a, b) == OffTheEnd {
      GroupOffIsRisky(a, b);
    }
    if GroupRisky(b) {
      var a := GroupRiskyWitness(b);
    }
  }

  // ---------------------------------------------------------------------
  // Lookahead that is followed by a node
  // ---------------------------------------------------------------------

  /** In every group that is looked into, lookahead is followed by a part that may match a node. */
  predicate ShapeFollowed(s: Shape)
  {
    match s
    case Cap(_, c) => Followed(c)
    case Children(a, b) => Followed(a) && Followed(b)
    case Rep(c) => Followed(c)
    case Opt(c) => Followed(c)
    case _ => true
  }

  predicate Followed(c: Chain)
  {
    && ShapeFollowed(c.shape)
    && (ShapeMultiplicity(c.shape) == Zero && !Positional(c.shape) ==> c.Link? && SomeNode(c.next))
    && (c.Link? ==> Followed(c.next))
  }

  predicate SomeNode(c: Chain)
  {
    ShapeMultiplicity(c.shape) != Zero || (c.Link? && SomeNode(c.next))
  }

  predicate PartsFollowed(ps: Parts)
  {
    ps.Cons? ==>
      && ShapeFollowed(ps.head) && PartsFollowed(ps.tail)
      && (ShapeMultiplicity(ps.head) == Zero && !Positional(ps.head) ==> SkipZero(ps.tail).Cons?)
  }

  lemma {:induction false} SomeNodeParts(c: Chain, rest: Parts)
    requires SomeNode(c)
    ensures SkipZero(PartsOf(c, rest)).Cons?
    decreases c
  {
    if ShapeMultiplicity(c.shape) == Zero {
      SomeNodeParts(c.next, rest);
    }
  }

  lemma {:induction false} FollowedParts(c: Chain, rest: Parts)
    requires Followed(c) && PartsFollowed(rest)
    ensures PartsFollowed(PartsOf(c, rest))
    decreases c
  {
    if c.Link? {
      FollowedParts(c.next, rest);
      if SomeNode(c.next) {
        SomeNodeParts(c.next, rest);
      }
    }
  }

  lemma {:induction false} FrontFollowed(ps: Parts)
    requires PartsFollowed(ps)
    ensures PartsFollowed(Front(ps))
    decreases Total(ps)
  {
    if ps.Cons? && ps.head.Cap? {
      PartsTotal(ps.head.inner, ps.tail);
      FollowedParts(ps.head.inner, ps.tail);
      FrontFollowed(PartsOf(ps.head.inner, ps.tail));
    }
  }

  lemma {:induction false} SkipFollowed(ps: Parts)
    requires PartsFollowed(ps)
    ensures PartsFollowed(SkipZero(ps))
  {
    if ps.Cons? && ShapeMultiplicity(ps.head) == Zero {
      SkipFollowed(ps.tail);
    }
  }

  lemma {:induction false} FollowedNotRisky(qs: Parts)
    requires PartsFollowed(qs)
    ensures !Risky(qs)
    decreases Total(qs), 2
  {
    if qs.Cons? {
      FrontFollowed(qs);
      FrontFollowedNotRisky(Front(qs));
    }
  }

  lemma {:induction false} GroupFollowedNotRisky(c: Chain)
    requires Followed(c)
    ensures !GroupRisky(c)
    decreases Size(c), 3
  {
    PartsTotal(c, Nil);
    FollowedParts(c, Nil);
    FollowedNotRisky(PartsOf(c, Nil));
  }

  lemma {:induction false} FrontFollowedNotRisky(qs: Parts)
    requires PartsFollowed(qs) && qs.Cons?
    ensures !FrontRisky(qs)
    decreases Total(qs), 1
  {
    FollowedNotRisky(qs.tail);
    SkipFollowed(qs);
    if SkipZero(qs).Cons? {
      FollowedNotRisky(SkipZero(qs).tail);
    }
    match qs.head
    case Children(a, b) =>
      GroupFollowedNotRisky(a);
      GroupFollowedNotRisky(b);
    case Rep(c) => GroupFollowedNotRisky(c);
    case Opt(c) => GroupFollowedNotRisky(c);
    case _ =>
  }

  /** Where lookahead is always followed by a node, the analysis stays inside the pattern, whatever the prefix. */
  lemma {:induction false} StaysInside(a: Chain, b: Chain)
    requires Followed(b)
    ensures GroupIncludes(a, b) != OffTheEnd
  {
    GroupFollowedNotRisky(b);
    if GroupIncludes(a, b) == OffTheEnd {
      GroupOffIsRisky(a, b);
    }
  }

  /** The smallest case: a wildcard before one part of lookahead, both of which pass the checks on single patterns. */
  lemma {:induction false} LookaheadUndefined(c: Chain)
    requires Checked(c) && !Binds(c)
    ensures Checked(End(Anything)) && Checked(End(Pred(c))) && Checked(End(NegPred(c)))
    ensures GroupIncludes(End(Anything), End(Pred(c))) == GroupIncludes(End(Anything), End(NegPred(c))) == OffTheEnd
  {
    OneLookahead(Pred(c));
    OneLookahead(NegPred(c));
  }

  lemma {:induction false} OneLookahead(q: Shape)
    requires q.Pred? || q.NegPred?
    ensures GroupIncludes(End(Anything), End(q)) == OffTheEnd
  {
    var ps, qs := Cons(Anything, Nil), Cons(q, Nil);
    assert PartsOf(End(Anything), Nil) == ps && PartsOf(End(q), Nil) == qs;
    assert Front(ps) == ps && Front(qs) == qs;
    assert ShapeMultiplicity(q) == Zero && SkipZero(Nil) == Nil;
    assert SkipZero(qs) == SkipZero(qs.tail);
    assert FrontIncludes(ps, qs) == OffTheEnd;
  }
}
