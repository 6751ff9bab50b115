// The postfix token stream between the pattern scanner and the automaton builder.

module Postfix {
  import opened RegexSemantics

  datatype ErrorCode =
    | NoError
    | ErrorBadEscape
    | ErrorMissingParen
    | ErrorUnexpectedParen
    | ErrorTrailingBackslash
    | ErrorRepeatSize
    | ErrorRepeatOp
    | ErrorBadCharRange
    | ErrorBadCharClass
    | ErrorMissingBracket
    | ErrorPatternTooLarge
    | ErrorNestingTooDeep
    | ErrorTooManyCaptures
    | ErrorStrictSyntax
    | ErrorInternalError

  datatype Token =
    | Atom(tag: Operand)
    | Catenation
    | Alternation
    | Quantifier(kind: RepeatKind, lazy: bool)
    | CaptureGroup(id: nat)

  /** The token stream of a regex: operands first, operators after. */
  function Postorder(r: Regex): (p: seq<Token>)
    ensures p != []
  {
    match r
    case Leaf(tag) => [Atom(tag)]
    case Concat(a, b) => Postorder(a) + Postorder(b) + [Catenation]
    case Either(a, b) => Postorder(a) + Postorder(b) + [Alternation]
    case Repeat(kind, lazy, a) => Postorder(a) + [Quantifier(kind, lazy)]
    case Group(id, a) => Postorder(a) + [CaptureGroup(id)]
  }

  /** The operands that wait for an operator, the most recent one on top. */
  datatype OperandStack = Bottom | Push(below: OperandStack, top: Regex)

  /** What a token stream leaves behind, or the error it runs into first. */
  datatype Reduction = Operands(stack: OperandStack) | Malformed(error: ErrorCode)

  ghost function Reduce(red: Reduction, token: Token): Reduction
  {
    if red.Malformed? then red
    else
      var s := red.stack;
      match token
      case Atom(tag) => Operands(Push(s, Leaf(tag)))
      case Catenation =>
        if s.Push? && s.below.Push? then Operands(Push(s.below.below, Concat(s.below.top, s.top)))
        else Malformed(ErrorInternalError)
      case Alternation =>
        if s.Push? && s.below.Push? then Operands(Push(s.below.below, Either(s.below.top, s.top)))
        else Malformed(ErrorInternalError)
      case Quantifier(kind, lazy) =>
        if s.Push? then Operands(Push(s.below, Repeat(kind, lazy, s.top))) else Malformed(ErrorRepeatOp)
      case CaptureGroup(id) =>
        if s.Push? then Operands(Push(s.below, Group(id, s.top))) else Malformed(ErrorInternalError)
  }

  ghost function ReduceAll(red: Reduction, p: seq<Token>): (result: Reduction)
    ensures red.Operands? && result.Malformed? ==> result.error != NoError
    decreases |p|
  {
    if p == [] then red else Reduce(ReduceAll(red, p[..|p| - 1]), p[|p| - 1])
  }

  lemma LastToken(red: Reduction, p: seq<Token>, token: Token)
    ensures ReduceAll(red, p + [token]) == Reduce(ReduceAll(red, p), token)
  {
    assert (p + [token])[..|p|] == p;
  }

  lemma {:induction false} ReduceConcat(red: Reduction, p: seq<Token>, q: seq<Token>)
    ensures ReduceAll(red, p + q) == ReduceAll(ReduceAll(red, p), q)
    decreases |q|
  {
    if q == [] {
      assert p + q == p;
    } else {
      var init := q[..|q| - 1];
      assert (p + q)[..|p + q| - 1] == p + init;
      ReduceConcat(red, p, init);
    }
  }

  /** Reading a regex's postorder pushes exactly that regex. */
  lemma {:induction false} PostorderReduces(r: Regex, s: OperandStack)
    ensures ReduceAll(Operands(s), Postorder(r)) == Operands(Push(s, r))
    decreases r, 1
  {
    match r
    case Leaf(tag) =>
      LeafReduces(tag, s);
    case Concat(a, b) =>
      BinaryReduces(r, a, b, s, Catenation);
    case Either(a, b) =>
      BinaryReduces(r, a, b, s, Alternation);
    case Repeat(kind, lazy, a) =>
      UnaryReduces(r, a, s, Quantifier(kind, lazy));
    case Group(id, a) =>
      UnaryReduces(r, a, s, CaptureGroup(id));
  }

  lemma LeafReduces(tag: Operand, s: OperandStack)
    ensures ReduceAll(Operands(s), Postorder(Leaf(tag))) == Operands(Push(s, Leaf(tag)))
  {
    LastToken(Operands(s), [], Atom(tag));
    assert Postorder(Leaf(tag)) == [] + [Atom(tag)];
  }

  lemma {:induction false} UnaryReduces(r: Regex, a: Regex, s: OperandStack, token: Token)
    requires (r.Repeat? || r.Group?) && r.body == a
    ensures ReduceAll(Operands(s), Postorder(a) + [token]) == Reduce(Operands(Push(s, a)), token)
    decreases r, 0
  {
    PostorderReduces(a, s);
    LastToken(Operands(s), Postorder(a), token);
  }

  lemma {:induction false} BinaryReduces(r: Regex, a: Regex, b: Regex, s: OperandStack, token: Token)
    requires r == Concat(a, b) || r == Either(a, b)
    ensures ReduceAll(Operands(s), Postorder(a) + Postorder(b) + [token]) == Reduce(Operands(Push(Push(s, a), b)), token)
    decreases r, 0
  {
    PostorderReduces(a, s);
    PostorderReduces(b, Push(s, a));
    ReduceConcat(Operands(s), Postorder(a), Postorder(b));
    LastToken(Operands(s), Postorder(a) + Postorder(b), token);
  }

  /** The token streams of the operands, bottom to top. */
  ghost function StackTokens(s: OperandStack): seq<Token>
  {
    if s.Bottom? then [] else StackTokens(s.below) + Postorder(s.top)
  }

  lemma Regroup(s: seq<Token>, a: seq<Token>, b: seq<Token>, token: Token)
    ensures s + a + b + [token] == s + (a + b + [token])
  {
  }

  lemma RegroupOne(s: seq<Token>, a: seq<Token>, token: Token)
    ensures s + a + [token] == s + (a + [token])
  {
  }

  /** Conversely, a stream that reduces at all is the postorder of what it reduces to. */
  lemma {:induction false} ReducesToPostorder(p: seq<Token>)
    requires ReduceAll(Operands(Bottom), p).Operands?
    ensures p == StackTokens(ReduceAll(Operands(Bottom), p).stack)
    decreases |p|
  {
    if p != [] {
      var init, token := p[..|p| - 1], p[|p| - 1];
      assert p == init + [token];
      ReducesToPostorder(init);
      var s := ReduceAll(Operands(Bottom), init).stack;
      match (token, s)
      case (Atom(_), _) =>
      case (Catenation, Push(Push(t, a), b)) =>
        Regroup(StackTokens(t), Postorder(a), Postorder(b), token);
      case (Alternation, Push(Push(t, a), b)) =>
        Regroup(StackTokens(t), Postorder(a), Postorder(b), token);
      case (Quantifier(_, _), Push(t, a)) =>
        RegroupOne(StackTokens(t), Postorder(a), token);
      case (CaptureGroup(_), Push(t, a)) =>
        RegroupOne(StackTokens(t), Postorder(a), token);
      case _ =>
    }
  }

  /** A stream denotes a regex iff it is that regex's postorder. */
  lemma PostorderUnique(p: seq<Token>, r: Regex)
    ensures ReduceAll(Operands(Bottom), p) == Operands(Push(Bottom, r)) <==> p == Postorder(r)
  {
    PostorderReduces(r, Bottom);
    if ReduceAll(Operands(Bottom), p) == Operands(Push(Bottom, r)) {
      ReducesToPostorder(p);
      assert StackTokens(Push(Bottom, r)) == [] + Postorder(r);
    }
  }

  lemma PrefixReduces(p: seq<Token>, i: nat)
    requires i < |p|
    ensures ReduceAll(Operands(Bottom), p[..i + 1]) == Reduce(ReduceAll(Operands(Bottom), p[..i]), p[i])
  {
    assert p[..i + 1] == p[..i] + [p[i]];
    LastToken(Operands(Bottom), p[..i], p[i]);
  }

  /** The first error is final. */
  lemma {:induction false} PrefixMalformed(p: seq<Token>, i: nat)
    requires i <= |p| && ReduceAll(Operands(Bottom), p[..i]).Malformed?
    ensures ReduceAll(Operands(Bottom), p) == ReduceAll(Operands(Bottom), p[..i])
    decreases |p| - i
  {
    if i == |p| {
      assert p[..i] == p;
    } else {
      PrefixReduces(p, i);
      PrefixMalformed(p, i + 1);
    }
  }
}
