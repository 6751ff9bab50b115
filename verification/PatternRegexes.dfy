// What written patterns mean, and that the regexes behind their token
// streams mean the same.

module PatternRegexes {
  import opened Options
  import opened Utf8
  import opened RuneClasses
  import opened RegexSemantics
  import opened CaptureSpans
  import opened Postfix
  import opened Repetition
  import opened ScanMachine
  import opened PatternSyntax
  import opened TokenStreams
  import opened ClassTable

  // ---------------------------------------------------------------------
  // The regex of a pattern
  // ---------------------------------------------------------------------

  /** Every operator of the pattern has its operands. */
  predicate ItemComplete(i: Item)
  {
    i.Grouped? ==> Complete(i.body) && !Vanishes(i.body)
  }

  predicate BranchComplete(b: Branch)
  {
    b.Append? ==> BranchComplete(b.front) && (Removes(b.piece.quantity) || ItemComplete(b.piece.item))
  }

  predicate Complete(x: Pattern)
  {
    match x
    case Only(b) => BranchComplete(b)
    case Or(front, last) => Complete(front) && BranchComplete(last) && !Vanishes(front) && Live(last)
  }

  function QuantityRegex(q: Quantity, r: Regex): Regex
  {
    match q
    case Once => r
    case Sign(kind, lazy) => Repeat(kind, lazy, r)
    case _ => if BoundsOf(q).Ordered() && !BoundsOf(q).Removes() then ExpansionOf(r, BoundsOf(q)) else r
  }

  function ItemRegex(i: Item, k: Numbering): Regex
    requires ItemComplete(i)
  {
    match i
    case Grouped(capturing, body) =>
      if capturing then Group(k.captures, PatternRegex(body, k.Capture())) else PatternRegex(body, k)
    case _ => Leaf(ItemTag(i, k))
  }

  function BranchRegex(b: Branch, k: Numbering): Regex
    requires BranchComplete(b) && Live(b)
  {
    if Removes(b.piece.quantity) then BranchRegex(b.front, k)
    else
      var r := QuantityRegex(b.piece.quantity, ItemRegex(b.piece.item, AfterBranch(b.front, k)));
      if Live(b.front) then Concat(BranchRegex(b.front, k), r) else r
  }

  function PatternRegex(x: Pattern, k: Numbering): Regex
    requires Complete(x) && !Vanishes(x)
  {
    match x
    case Only(b) => BranchRegex(b, k)
    case Or(front, last) => Either(PatternRegex(front, k), BranchRegex(last, AfterPattern(front, k)))
  }

  // ---------------------------------------------------------------------
  // Complete patterns: the stream is the postorder of the regex
  // ---------------------------------------------------------------------

  lemma QuantityPostorder(q: Quantity, r: Regex)
    ensures QuantityTokens(q, Postorder(r)) == Postorder(QuantityRegex(q, r))
  {
    if q.Exactly? || q.AtLeast? || q.FromTo? {
      if BoundsOf(q).Ordered() && !BoundsOf(q).Removes() {
        ExpansionPostorder(r, BoundsOf(q));
      }
    }
  }

  lemma {:induction false} ItemPostorder(i: Item, k: Numbering)
    requires ItemComplete(i)
    ensures ItemTokens(i, k) == Postorder(ItemRegex(i, k))
    decreases i
  {
    if i.Grouped? {
      PatternPostorder(i.body, if i.capturing then k.Capture() else k);
    }
  }

  lemma {:induction false} BranchPostorder(b: Branch, k: Numbering)
    requires BranchComplete(b)
    ensures BranchTokens(b, k) == if Live(b) then Postorder(BranchRegex(b, k)) else []
    decreases b
  {
    if b.Append? {
      BranchPostorder(b.front, k);
      if !Removes(b.piece.quantity) {
        var k' := AfterBranch(b.front, k);
        ItemPostorder(b.piece.item, k');
        QuantityPostorder(b.piece.quantity, ItemRegex(b.piece.item, k'));
      }
    }
  }

  lemma {:induction false} PatternPostorder(x: Pattern, k: Numbering)
    requires Complete(x)
    ensures PatternTokens(x, k) == if Vanishes(x) then [] else Postorder(PatternRegex(x, k))
    decreases x
  {
    match x
    case Only(b) => BranchPostorder(b, k);
    case Or(front, last) =>
      PatternPostorder(front, k);
      BranchPostorder(last, AfterPattern(front, k));
  }

  // ---------------------------------------------------------------------
  // Incomplete patterns: operands are missing, so no regex has this stream
  // ---------------------------------------------------------------------

  /** Operands pushed minus operands consumed by binary operators. */
  function Balance(p: seq<Token>): int
  {
    if p == [] then 0
    else
      Balance(p[..|p| - 1]) +
      match p[|p| - 1]
      case Atom(_) => 1
      case Catenation => -1
      case Alternation => -1
      case _ => 0
  }

  lemma {:induction false} BalanceConcat(p: seq<Token>, q: seq<Token>)
    ensures Balance(p + q) == Balance(p) + Balance(q)
    decreases |q|
  {
    if q == [] {
      assert p + q == p;
    } else {
      assert (p + q)[..|p + q| - 1] == p + q[..|q| - 1];
      BalanceConcat(p, q[..|q| - 1]);
    }
  }

  lemma BalanceOne(t: Token)
    ensures Balance([t]) == match t case Atom(_) => 1 case Catenation => -1 case Alternation => -1 case _ => 0
  {
    assert [t][..0] == [];
  }

  lemma BalanceSnoc(p: seq<Token>, t: Token)
    ensures Balance(p + [t]) == Balance(p) + Balance([t])
  {
    BalanceConcat(p, [t]);
  }

  lemma {:induction false} PostorderBalance(r: Regex)
    ensures Balance(Postorder(r)) == 1
  {
    match r
    case Leaf(tag) => BalanceOne(Atom(tag));
    case Concat(a, b) =>
      PostorderBalance(a);
      PostorderBalance(b);
      BalanceConcat(Postorder(a), Postorder(b));
      BalanceSnoc(Postorder(a) + Postorder(b), Catenation);
      BalanceOne(Catenation);
    case Either(a, b) =>
      PostorderBalance(a);
      PostorderBalance(b);
      BalanceConcat(Postorder(a), Postorder(b));
      BalanceSnoc(Postorder(a) + Postorder(b), Alternation);
      BalanceOne(Alternation);
    case Repeat(kind, lazy, a) =>
      PostorderBalance(a);
      BalanceSnoc(Postorder(a), Quantifier(kind, lazy));
      BalanceOne(Quantifier(kind, lazy));
    case Group(id, a) =>
      PostorderBalance(a);
      BalanceSnoc(Postorder(a), CaptureGroup(id));
      BalanceOne(CaptureGroup(id));
  }

  /** At most one operand is left, and none if one is missing. */
  predicate Lacks(p: seq<Token>, complete: bool)
  {
    Balance(p) <= 1 && (!complete ==> Balance(p) <= 0)
  }

  lemma {:induction false} CopiesLack(operand: seq<Token>, n: nat, complete: bool)
    requires Lacks(operand, complete)
    ensures Balance(Copies(operand, n)) <= 1 && (n > 0 && !complete ==> Balance(Copies(operand, n)) <= 0)
  {
    if n > 0 {
      CopiesLack(operand, n - 1, complete);
      BalanceConcat(Copies(operand, n - 1), operand);
      BalanceOne(Catenation);
      if n > 1 {
        BalanceSnoc(Copies(operand, n - 1) + operand, Catenation);
      } else {
        assert Copies(operand, n) == operand;
      }
    }
  }

  lemma {:induction false} OptionalLack(operand: seq<Token>, n: nat, k: nat, complete: bool)
    requires Lacks(operand, complete)
    ensures Balance(WithOptional(operand, n, k)) <= 1 && (n + k > 0 && !complete ==> Balance(WithOptional(operand, n, k)) <= 0)
    decreases k
  {
    if k == 0 {
      CopiesLack(operand, n, complete);
    } else {
      OptionalLack(operand, n, k - 1, complete);
      var front := WithOptional(operand, n, k - 1);
      BalanceConcat(front, operand);
      BalanceSnoc(front + operand, GREEDY_OPTION);
      BalanceOne(GREEDY_OPTION);
      BalanceOne(Catenation);
      if n > 0 || k > 1 {
        BalanceSnoc(front + operand + [GREEDY_OPTION], Catenation);
      } else {
        assert front == [];
        assert front + operand + [GREEDY_OPTION] + [] == front + operand + [GREEDY_OPTION];
      }
    }
  }

  lemma ExpansionLacks(operand: seq<Token>, b: Bounds, complete: bool)
    requires b.Ordered() && !b.Removes() && Lacks(operand, complete)
    ensures Lacks(Expansion(operand, b), complete)
  {
    match b.max
    case Some(max) => OptionalLack(operand, b.min, max - b.min, complete);
    case None =>
      CopiesLack(operand, b.min, complete);
      OpenBalance(Copies(operand, b.min), operand, b.min > 0);
  }

  /** An unbounded repetition behind the copies. */
  lemma OpenBalance(front: seq<Token>, operand: seq<Token>, joined: bool)
    ensures Balance(front + operand + [GREEDY_STAR] + if joined then [Catenation] else []) ==
            Balance(front) + Balance(operand) - if joined then 1 else 0
  {
    BalanceConcat(front, operand);
    BalanceSnoc(front + operand, GREEDY_STAR);
    BalanceOne(GREEDY_STAR);
    BalanceOne(Catenation);
    if joined {
      BalanceSnoc(front + operand + [GREEDY_STAR], Catenation);
    } else {
      assert front + operand + [GREEDY_STAR] + [] == front + operand + [GREEDY_STAR];
    }
  }

  lemma QuantityLacks(q: Quantity, atom: seq<Token>, complete: bool)
    requires Lacks(atom, complete)
    ensures Lacks(QuantityTokens(q, atom), complete)
  {
    match q
    case Once =>
    case Sign(kind, lazy) =>
      BalanceSnoc(atom, Quantifier(kind, lazy));
      BalanceOne(Quantifier(kind, lazy));
    case _ =>
      if BoundsOf(q).Ordered() && !BoundsOf(q).Removes() {
        ExpansionLacks(atom, BoundsOf(q), complete);
      }
  }

  lemma {:induction false} ItemLacks(i: Item, k: Numbering)
    ensures Lacks(ItemTokens(i, k), ItemComplete(i))
    decreases i
  {
    match i
    case Grouped(capturing, body) =>
      var k' := if capturing then k.Capture() else k;
      PatternLacks(body, k');
      BalanceSnoc(PatternTokens(body, k'), CaptureGroup(k.captures));
      BalanceOne(CaptureGroup(k.captures));
    case _ => BalanceOne(Atom(ItemTag(i, k)));
  }

  lemma {:induction false} BranchLacks(b: Branch, k: Numbering)
    ensures Lacks(BranchTokens(b, k), BranchComplete(b))
    ensures !Live(b) ==> BranchTokens(b, k) == [] && BranchComplete(b)
    decreases b
  {
    if b.Append? {
      BranchLacks(b.front, k);
      if !Removes(b.piece.quantity) {
        var k' := AfterBranch(b.front, k);
        var before, operand := BranchTokens(b.front, k), QuantityTokens(b.piece.quantity, ItemTokens(b.piece.item, k'));
        ItemLacks(b.piece.item, k');
        QuantityLacks(b.piece.quantity, ItemTokens(b.piece.item, k'), ItemComplete(b.piece.item));
        BalanceConcat(before, operand);
        BalanceOne(Catenation);
        if Live(b.front) {
          BalanceSnoc(before + operand, Catenation);
        } else {
          assert before + operand + [] == operand;
        }
      }
    }
  }

  lemma {:induction false} PatternLacks(x: Pattern, k: Numbering)
    ensures Lacks(PatternTokens(x, k), Complete(x) && !Vanishes(x))
    decreases x
  {
    match x
    case Only(b) =>
      BranchLacks(b, k);
    case Or(front, last) =>
      var p, q := PatternTokens(front, k), BranchTokens(last, AfterPattern(front, k));
      PatternLacks(front, k);
      BranchLacks(last, AfterPattern(front, k));
      BalanceConcat(p, q);
      BalanceSnoc(p + q, Alternation);
      BalanceOne(Alternation);
  }

  /** A token stream belongs to a regex exactly if the pattern is complete and leaves an operand. */
  lemma StreamDenotes(x: Pattern, k: Numbering)
    ensures Complete(x) && !Vanishes(x) <==> exists r :: PatternTokens(x, k) == Postorder(r)
    ensures Complete(x) && !Vanishes(x) ==> PatternTokens(x, k) == Postorder(PatternRegex(x, k))
  {
    if Complete(x) && !Vanishes(x) {
      PatternPostorder(x, k);
    } else {
      PatternLacks(x, k);
      forall r
        ensures PatternTokens(x, k) != Postorder(r)
      {
        PostorderBalance(r);
      }
    }
  }
}
