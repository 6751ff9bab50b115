// Class references beyond the last label: the scanner of regex_engine.h lets
// a dot or a shorthand that has no label of its own share that of the first
// class.

module ClassOverflow {
  import opened Options
  import opened Utf8
  import opened RuneClasses
  import opened RegexSemantics
  import opened Postfix
  import opened Repetition
  import opened ScanMachine
  import opened PatternSyntax
  import opened TokenStreams
  import opened Limits
  import opened ClassTable
  import opened PatternRegexes
  import opened WrittenMeaning
  import opened Reachability
  import opened Engine
  import opened Compile

  const NONE: Quantity := Exactly([48])

  /** Dots that are repeated zero times: they match the empty text, and each takes a label. */
  function Dots(n: nat): Branch
  {
    if n == 0 then Empty else Append(Dots(n - 1), Piece(Dot, NONE))
  }

  lemma NoneRemoves()
    ensures BoundsOf(NONE) == Bounds(0, Some(0)) && Removes(NONE)
  {
    assert Value([48]) == 0;
  }

  lemma {:induction false} DotsVanish(n: nat)
    ensures BranchComplete(Dots(n)) && !Live(Dots(n)) && BranchTokens(Dots(n), UNNUMBERED) == []
    ensures BranchReferences(Dots(n)) == n && AfterBranch(Dots(n), UNNUMBERED).captures == 0
  {
    NoneRemoves();
    if n > 0 {
      DotsVanish(n - 1);
    }
  }

  lemma {:induction false} DotsLabels(n: nat)
    ensures var k := AfterBranch(Dots(n), UNNUMBERED);
            |k.classes| == (if n <= MAX_CLASS_INDEX + 1 then n else MAX_CLASS_INDEX + 1) &&
            forall i :: 0 <= i < |k.classes| ==> k.classes[i] == AnyRune
  {
    if n > 0 {
      DotsLabels(n - 1);
    }
  }

  lemma {:induction false} DotsWithin(n: nat)
    ensures BranchWithin(Dots(n), UNNUMBERED, 0, 0, 0)
  {
    NoneRemoves();
    if n > 0 {
      DotsWithin(n - 1);
      DotsVanish(n - 1);
    }
  }

  lemma {:induction false} AppendMeans(front: Branch, piece: Piece, t: Subject, a: nat, b: nat) returns (m: nat)
    requires BranchMeans(Append(front, piece), t, a, b)
    ensures BranchMeans(front, t, a, m) && PieceMeans(piece, t, m, b)
  {
    m :| BranchMeans(front, t, a, m) && PieceMeans(piece, t, m, b);
  }

  lemma {:induction false} PieceTimes(p: Piece, t: Subject, a: nat, b: nat) returns (n: nat)
    requires PieceMeans(p, t, a, b)
    ensures Admitted(p.quantity, n) && Times(p.item, n, t, a, b)
  {
    n :| Admitted(p.quantity, n) && Times(p.item, n, t, a, b);
  }

  lemma {:induction false} DotsMean(n: nat, t: Subject, a: nat, b: nat)
    requires BranchMeans(Dots(n), t, a, b)
    ensures a == b
  {
    NoneRemoves();
    if n > 0 {
      var m := AppendMeans(Dots(n - 1), Piece(Dot, NONE), t, a, b);
      DotsMean(n - 1, t, a, m);
      var times := PieceTimes(Piece(Dot, NONE), t, m, b);
      assert times == 0;
    }
  }

  /** A digit after so many dots that no label is left. */
  function Late(): Pattern
  {
    Only(Append(Dots(MAX_CLASS_INDEX + 1), Piece(Short('d' as int, false), Once)))
  }

  /** Its digit is compiled to the label of the first dot. */
  lemma {:induction false} LateRegex()
    ensures Complete(Late()) && WithinLimits(Late())
    ensures RegexOf(Late()) == Some(Leaf(Class(0)))
    ensures |AfterPattern(Late(), UNNUMBERED).classes| > 0 && AfterPattern(Late(), UNNUMBERED).classes[0] == AnyRune
  {
    var dots, digit := Dots(MAX_CLASS_INDEX + 1), Piece(Short('d' as int, false), Once);
    var k := AfterBranch(dots, UNNUMBERED);
    DotsVanish(MAX_CLASS_INDEX + 1);
    DotsLabels(MAX_CLASS_INDEX + 1);
    DotsWithin(MAX_CLASS_INDEX + 1);
    assert k.Label() == Class(0);
    assert AfterPattern(Late(), UNNUMBERED).classes == k.classes;
    assert PatternRegex(Late(), UNNUMBERED) == Leaf(Class(0));
  }

  lemma {:induction false} LateMeans(t: Subject)
    requires t.runes == ['a' as int]
    ensures !PatternMeans(Late(), t, 0, 1)
  {
    if PatternMeans(Late(), t, 0, 1) {
      var dots, digit := Dots(MAX_CLASS_INDEX + 1), Short('d' as int, false);
      var m := AppendMeans(dots, Piece(digit, Once), t, 0, 1);
      DotsMean(MAX_CLASS_INDEX + 1, t, 0, m);
      var n := PieceTimes(Piece(digit, Once), t, m, 1);
    }
  }

  /** An engine for a pattern whose regex is the first label matches every character, if that label is a dot's. */
  lemma {:induction false} SharedLabel(e: RegexEngine, x: Pattern, t: Subject)
    requires BuiltFor(e, x) && RegexOf(x) == Some(Leaf(Class(0))) && t.classes == e.classes && t.runes == ['a' as int]
    requires |AfterPattern(x, UNNUMBERED).classes| > 0 && AfterPattern(x, UNNUMBERED).classes[0] == AnyRune
    ensures PatternMatches(e.pattern, t, 0, 1)
  {
    assert Fits(e.classes[0], AnyRune);
  }

  /** A pattern that its engine does not match like the pattern means has a wrong label. */
  lemma {:induction false} WrongLabel(e: RegexEngine, x: Pattern, t: Subject)
    requires BuiltFor(e, x) && Complete(x) && t.classes == e.classes
    requires PatternMatches(e.pattern, t, 0, 1) && !PatternMeans(x, t, 0, 1)
    ensures !PatternLabelled(x, UNNUMBERED)
  {
    if PatternLabelled(x, UNNUMBERED) {
      BuiltMeaning(e, x, t, 0, 1);
    }
  }

  /** The pattern is accepted and stands for a digit, but its engine matches any character. */
  lemma {:induction false} OverflowMisleads(e: RegexEngine, x: Pattern, t: Subject)
    requires x == Late() && BuiltFor(e, x) && t.classes == e.classes && t.runes == ['a' as int]
    ensures Complete(x) && WithinLimits(x)
    ensures PatternMatches(e.pattern, t, 0, 1) && !PatternMeans(x, t, 0, 1)
    ensures !PatternLabelled(x, UNNUMBERED)
  {
    LateRegex();
    LateMeans(t);
    SharedLabel(e, x, t);
    WrongLabel(e, x, t);
  }
}
