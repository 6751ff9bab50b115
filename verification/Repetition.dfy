// Counted repetition {n}, {n,}, {n,m}: expanded by copying the operand's
// tokens, on_open_brace in regex_engine.h.

module Repetition {
  import opened Options
  import opened RegexSemantics
  import opened Postfix

  /** A repetition count: at least `min`, and at most `max` unless it is None. */
  datatype Bounds = Bounds(min: nat, max: Option<nat>)
  {
    predicate Ordered() { max.Some? ==> min <= max.value }

    /** {0} removes its operand. */
    predicate Removes() { max == Some(0) }

    predicate Admits(k: nat) { min <= k && (max.Some? ==> k <= max.value) }
  }

  const GREEDY_STAR: Token := Quantifier(ZeroOrMore, false)
  const GREEDY_OPTION: Token := Quantifier(ZeroOrOne, false)

  /** `n` mandatory copies. */
  function Copies(operand: seq<Token>, n: nat): (p: seq<Token>)
  {
    if n == 0 then []
    else Copies(operand, n - 1) + operand + if n > 1 then [Catenation] else []
  }

  /** `n` mandatory copies followed by `k` optional ones. */
  function WithOptional(operand: seq<Token>, n: nat, k: nat): (p: seq<Token>)
    decreases k
  {
    if k == 0 then Copies(operand, n)
    else WithOptional(operand, n, k - 1) + operand + [GREEDY_OPTION] + if n > 0 || k > 1 then [Catenation] else []
  }

  /** What a repeated operand is replaced by. */
  function Expansion(operand: seq<Token>, b: Bounds): (p: seq<Token>)
    requires b.Ordered() && !b.Removes()
  {
    match b.max
    case None => Copies(operand, b.min) + operand + [GREEDY_STAR] + if b.min > 0 then [Catenation] else []
    case Some(max) => WithOptional(operand, b.min, max - b.min)
  }

  // ---------------------------------------------------------------------
  // The same expansion on regexes
  // ---------------------------------------------------------------------

  function CopiesOf(r: Regex, n: nat): Regex
    requires n > 0
  {
    if n == 1 then r else Concat(CopiesOf(r, n - 1), r)
  }

  function OptionalOf(r: Regex, n: nat, k: nat): Regex
    requires n + k > 0
    decreases k
  {
    if k == 0 then CopiesOf(r, n)
    else if n + k == 1 then Repeat(ZeroOrOne, false, r)
    else Concat(OptionalOf(r, n, k - 1), Repeat(ZeroOrOne, false, r))
  }

  function ExpansionOf(r: Regex, b: Bounds): Regex
    requires b.Ordered() && !b.Removes()
  {
    match b.max
    case None =>
      var star := Repeat(ZeroOrMore, false, r);
      if b.min == 0 then star else Concat(CopiesOf(r, b.min), star)
    case Some(max) => OptionalOf(r, b.min, max - b.min)
  }

  lemma {:induction false} CopiesPostorder(r: Regex, n: nat)
    requires n > 0
    ensures Copies(Postorder(r), n) == Postorder(CopiesOf(r, n))
  {
    if n > 1 {
      CopiesPostorder(r, n - 1);
    } else {
      assert Copies(Postorder(r), 0) == [];
    }
  }

  lemma {:induction false} OptionalPostorder(r: Regex, n: nat, k: nat)
    requires n + k > 0
    ensures WithOptional(Postorder(r), n, k) == Postorder(OptionalOf(r, n, k))
    decreases k
  {
    var option := Repeat(ZeroOrOne, false, r);
    if k == 0 {
      CopiesPostorder(r, n);
    } else if n + k == 1 {
      assert Copies(Postorder(r), 0) == [];
    } else {
      OptionalPostorder(r, n, k - 1);
      var front := Postorder(OptionalOf(r, n, k - 1));
      RegroupOne(front, Postorder(r), GREEDY_OPTION);
    }
  }

  /** Copying token segments copies operands: the expansion of a regex's tokens is the token stream of a regex. */
  lemma OperatorPostorder(a: Regex, b: Regex, kind: RepeatKind, lazy: bool)
    ensures Postorder(Concat(a, b)) == Postorder(a) + Postorder(b) + [Catenation]
    ensures Postorder(Repeat(kind, lazy, a)) == Postorder(a) + [Quantifier(kind, lazy)]
  {
  }

  lemma {:induction false} AtLeastPostorder(r: Regex, n: nat, star: Regex)
    requires n > 0 && star == Repeat(ZeroOrMore, false, r)
    ensures Copies(Postorder(r), n) + Postorder(r) + [GREEDY_STAR] + [Catenation] == Postorder(Concat(CopiesOf(r, n), star))
  {
    var c := CopiesOf(r, n);
    CopiesPostorder(r, n);
    OperatorPostorder(r, r, ZeroOrMore, false);
    OperatorPostorder(c, star, ZeroOrMore, false);
    RegroupOne(Postorder(c), Postorder(r), GREEDY_STAR);
  }

  lemma {:induction false} ExpansionPostorder(r: Regex, b: Bounds)
    requires b.Ordered() && !b.Removes()
    ensures Expansion(Postorder(r), b) == Postorder(ExpansionOf(r, b))
  {
    match b.max
    case None =>
      OperatorPostorder(r, r, ZeroOrMore, false);
      if b.min > 0 {
        AtLeastPostorder(r, b.min, Repeat(ZeroOrMore, false, r));
      } else {
        assert Copies(Postorder(r), 0) == [];
      }
    case Some(max) => OptionalPostorder(r, b.min, max - b.min);
  }

  // ---------------------------------------------------------------------
  // What the expansion matches
  // ---------------------------------------------------------------------

  /** Matches in a row, counted from the front or from the back. */
  lemma {:induction false} PowerAdd(r: Regex, a: nat, b: nat, t: Subject, i: nat, k: nat, j: nat)
    requires Power(r, a, t, i, k) && Power(r, b, t, k, j)
    ensures Power(r, a + b, t, i, j)
    decreases a
  {
    if a > 0 {
      var m :| Matches(r, t, i, m) && Power(r, a - 1, t, m, k);
      PowerAdd(r, a - 1, b, t, m, k, j);
    }
  }

  lemma {:induction false} PowerSplit(r: Regex, a: nat, b: nat, t: Subject, i: nat, j: nat) returns (k: nat)
    requires Power(r, a + b, t, i, j)
    ensures Power(r, a, t, i, k) && Power(r, b, t, k, j)
    decreases a
  {
    if a == 0 {
      k := i;
      PowerInRange(r, b, t, i, j);
    } else {
      var m :| Matches(r, t, i, m) && Power(r, a + b - 1, t, m, j);
      k := PowerSplit(r, a - 1, b, t, m, j);
    }
  }

  lemma OnePower(r: Regex, t: Subject, i: nat, j: nat)
    ensures Power(r, 1, t, i, j) <==> Matches(r, t, i, j)
  {
    if Matches(r, t, i, j) {
      MatchesInRange(r, t, i, j);
      assert Power(r, 0, t, j, j);
    }
  }

  lemma ConcatParts(a: Regex, b: Regex, t: Subject, i: nat, j: nat) returns (k: nat)
    requires Matches(Concat(a, b), t, i, j)
    ensures Matches(a, t, i, k) && Matches(b, t, k, j)
  {
    k :| Matches(a, t, i, k) && Matches(b, t, k, j);
  }

  lemma StarCount(r: Regex, t: Subject, i: nat, j: nat) returns (c: nat)
    requires Matches(Repeat(ZeroOrMore, false, r), t, i, j)
    ensures Power(r, c, t, i, j)
  {
    c :| Power(r, c, t, i, j);
  }

  lemma {:induction false} CopiesMeaning(r: Regex, n: nat, t: Subject, i: nat, j: nat)
    requires n > 0
    ensures Matches(CopiesOf(r, n), t, i, j) <==> Power(r, n, t, i, j)
    decreases n
  {
    OnePower(r, t, i, j);
    if n > 1 {
      var front := CopiesOf(r, n - 1);
      if Matches(Concat(front, r), t, i, j) {
        var k := ConcatParts(front, r, t, i, j);
        CopiesMeaning(r, n - 1, t, i, k);
        OnePower(r, t, k, j);
        PowerAdd(r, n - 1, 1, t, i, k, j);
      }
      if Power(r, n, t, i, j) {
        var k := PowerSplit(r, n - 1, 1, t, i, j);
        CopiesMeaning(r, n - 1, t, i, k);
        OnePower(r, t, k, j);
        assert Matches(front, t, i, k) && Matches(r, t, k, j);
      }
    }
  }

  /** Between `n` and `n + k` matches in a row lead from `i` to `j`. */
  ghost predicate Between(r: Regex, n: nat, k: nat, t: Subject, i: nat, j: nat)
  {
    exists c: nat :: n <= c <= n + k && Power(r, c, t, i, j)
  }

  lemma {:induction false} OptionalSound(r: Regex, n: nat, k: nat, t: Subject, i: nat, j: nat)
    requires n + k > 0 && Matches(OptionalOf(r, n, k), t, i, j)
    ensures Between(r, n, k, t, i, j)
    decreases k
  {
    var option := Repeat(ZeroOrOne, false, r);
    if k == 0 {
      CopiesMeaning(r, n, t, i, j);
    } else if n + k == 1 {
      OnePower(r, t, i, j);
      assert i == j <= |t.runes| ==> Power(r, 0, t, i, j);
    } else {
      var front := OptionalOf(r, n, k - 1);
      var m :| Matches(front, t, i, m) && Matches(option, t, m, j);
      OptionalSound(r, n, k - 1, t, i, m);
      var c: nat :| n <= c <= n + k - 1 && Power(r, c, t, i, m);
      if Matches(r, t, m, j) {
        OnePower(r, t, m, j);
        PowerAdd(r, c, 1, t, i, m, j);
      }
    }
  }

  lemma {:induction false} OptionalComplete(r: Regex, n: nat, k: nat, c: nat, t: Subject, i: nat, j: nat)
    requires n + k > 0 && n <= c <= n + k && Power(r, c, t, i, j)
    ensures Matches(OptionalOf(r, n, k), t, i, j)
    decreases k
  {
    var option := Repeat(ZeroOrOne, false, r);
    PowerInRange(r, c, t, i, j);
    if k == 0 {
      CopiesMeaning(r, n, t, i, j);
    } else if n + k == 1 {
      OnePower(r, t, i, j);
    } else if c < n + k {
      OptionalComplete(r, n, k - 1, c, t, i, j);
      assert Matches(OptionalOf(r, n, k - 1), t, i, j) && Matches(option, t, j, j);
    } else {
      var m := PowerSplit(r, c - 1, 1, t, i, j);
      OnePower(r, t, m, j);
      OptionalComplete(r, n, k - 1, c - 1, t, i, m);
      assert Matches(OptionalOf(r, n, k - 1), t, i, m) && Matches(option, t, m, j);
    }
  }

  /**
   * The expansion means what the notation says: it matches exactly the
   * stretches that some admitted number of consecutive matches cover.
   */
  lemma ExpansionMeaning(r: Regex, b: Bounds, t: Subject, i: nat, j: nat)
    requires b.Ordered() && !b.Removes()
    ensures Matches(ExpansionOf(r, b), t, i, j) <==> exists c: nat :: b.Admits(c) && Power(r, c, t, i, j)
  {
    match b.max
    case None => AtLeastMeaning(r, b.min, t, i, j);
    case Some(max) =>
      var k := max - b.min;
      if Matches(ExpansionOf(r, b), t, i, j) {
        OptionalSound(r, b.min, k, t, i, j);
        var c: nat :| b.min <= c <= b.min + k && Power(r, c, t, i, j);
        assert b.Admits(c);
      }
      if c: nat :| b.Admits(c) && Power(r, c, t, i, j) {
        OptionalComplete(r, b.min, k, c, t, i, j);
      }
  }

  lemma {:induction false} AtLeastMeaning(r: Regex, n: nat, t: Subject, i: nat, j: nat)
    ensures Matches(ExpansionOf(r, Bounds(n, None)), t, i, j) <==> exists c: nat :: Bounds(n, None).Admits(c) && Power(r, c, t, i, j)
  {
    var b, star := Bounds(n, None), Repeat(ZeroOrMore, false, r);
    if n == 0 {
      if Matches(star, t, i, j) {
        var c := StarCount(r, t, i, j);
        assert b.Admits(c);
      }
    } else {
      if Matches(ExpansionOf(r, b), t, i, j) {
        var m := ConcatParts(CopiesOf(r, n), star, t, i, j);
        CopiesMeaning(r, n, t, i, m);
        var c := StarCount(r, t, m, j);
        PowerAdd(r, n, c, t, i, m, j);
        assert b.Admits(n + c);
      }
      if c: nat :| b.Admits(c) && Power(r, c, t, i, j) {
        var m := PowerSplit(r, n, c - n, t, i, j);
        CopiesMeaning(r, n, t, i, m);
        assert Matches(CopiesOf(r, n), t, i, m) && Matches(star, t, m, j);
      }
    }
  }
}
