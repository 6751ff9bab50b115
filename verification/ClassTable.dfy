// The members that class references in a pattern stand for.

module ClassTable {
  import opened Utf8
  import opened RuneClasses
  import opened RegexSemantics
  import opened ScanMachine

  predicate ShorthandMember(letter: Rune, r: Rune)
  {
    if letter == 'd' as int then '0' as int <= r <= '9' as int
    else if letter == 's' as int then 9 <= r <= 13 || r == 32
    else IsWordChar(r)
  }

  /** A class in the table has the members its description promises. */
  ghost predicate Fits(c: RuneClass, spec: ClassSpec)
  {
    c.Ready() &&
    match spec
    case AnyRune => forall r: Rune :: InRanges(c.ranges, r) <==> IsScalar(r)
    case Shorthand(letter, negated) => forall r: Rune :: InRanges(c.ranges, r) <==> IsScalar(r) && ShorthandMember(letter, r) != negated
    case Given(c') => c == c'
  }

  ghost predicate AllFit(cs: seq<RuneClass>, specs: seq<ClassSpec>)
  {
    |cs| == |specs| && forall k :: 0 <= k < |cs| ==> Fits(cs[k], specs[k])
  }

  lemma AllFitSnoc(cs: seq<RuneClass>, specs: seq<ClassSpec>, c: RuneClass, spec: ClassSpec)
    requires AllFit(cs, specs) && Fits(c, spec)
    ensures AllFit(cs + [c], specs + [spec])
  {
  }

  // ---------------------------------------------------------------------
  // Shorthand classes
  // ---------------------------------------------------------------------

  function ShorthandRanges(letter: Rune): seq<Range>
    requires IsShorthand(letter)
  {
    if letter == 'd' as int then [('0' as int, '9' as int)]
    else if letter == 's' as int then [(9, 13), (32, 32)]
    else [('0' as int, '9' as int), ('A' as int, 'Z' as int), ('_' as int, '_' as int), ('a' as int, 'z' as int)]
  }

  function ShorthandSet(letter: Rune, negated: bool): RuneClass
    requires IsShorthand(letter)
  {
    var c := Finalized(ShorthandRanges(letter));
    if negated then Complemented(c.ranges) else c
  }

  lemma ShorthandMembers(letter: Rune)
    requires IsShorthand(letter)
    ensures ScalarEnds(ShorthandRanges(letter))
    ensures forall r: Rune :: InRanges(ShorthandRanges(letter), r) <==> ShorthandMember(letter, r)
  {
    var ranges := ShorthandRanges(letter);
    forall r: Rune
      ensures InRanges(ranges, r) <==> ShorthandMember(letter, r)
    {
      assert ranges[0].0 <= r <= ranges[0].1 ==> InRanges(ranges, r);
      assert |ranges| > 1 && ranges[1].0 <= r <= ranges[1].1 ==> InRanges(ranges, r);
      assert |ranges| > 2 && ranges[2].0 <= r <= ranges[2].1 ==> InRanges(ranges, r);
      assert |ranges| > 3 && ranges[3].0 <= r <= ranges[3].1 ==> InRanges(ranges, r);
    }
  }

  /** The class of a shorthand has its members, or the other scalar values. */
  lemma ShorthandFits(letter: Rune, negated: bool)
    requires IsShorthand(letter)
    ensures Fits(ShorthandSet(letter, negated), Shorthand(letter, negated)) && Edged(ShorthandSet(letter, negated).ranges)
  {
    ShorthandMembers(letter);
    FinalizedRight(ShorthandRanges(letter));
    if negated {
      ComplementedRight(Finalized(ShorthandRanges(letter)).ranges);
    }
  }

  /** The class a shorthand escape stands for. */
  method ShorthandClass(letter: Rune, negated: bool) returns (c: RuneClass)
    requires IsShorthand(letter)
    ensures c == ShorthandSet(letter, negated) && Fits(c, Shorthand(letter, negated))
  {
    ShorthandFits(letter, negated);
    c := Finalize(ShorthandRanges(letter));
    if negated {
      FinalizedRight(ShorthandRanges(letter));
      c := Complement(c.ranges);
    }
  }
}
