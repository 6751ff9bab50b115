// The configured limits, read off the pattern: exactly which written patterns
// the scanner of regex_engine.h accepts.

module Limits {
  import opened Options
  import opened Utf8
  import opened RuneClasses
  import opened RegexSemantics
  import opened Postfix
  import opened Repetition
  import opened ScanMachine
  import opened PatternSyntax
  import opened TokenStreams

  /** The number of class references in a pattern. */
  function ItemReferences(i: Item): nat
  {
    if i.Grouped? then References(i.body)
    else (if SpecOf(i).Some? then 1 else 0) + if i.Bracket? then |i.inner| else 0
  }

  function BranchReferences(b: Branch): nat
  {
    if b.Empty? then 0 else BranchReferences(b.front) + ItemReferences(b.piece.item)
  }

  function References(x: Pattern): nat
  {
    match x
    case Only(b) => BranchReferences(b)
    case Or(front, last) => References(front) + BranchReferences(last)
  }

  /** Class references up to here have labels of their own. */
  predicate Labelled(refs: nat) { refs <= MAX_CLASS_INDEX + 1 }

  /**
   * A quantity on an atom that starts `at` tokens into the stream. Repetition
   * counts are bounded, and so is the stream while the copies are written.
   */
  predicate QuantityWithin(q: Quantity, atom: seq<Token>, at: nat, refs: nat)
  {
    match q
    case Once => true
    case Sign(_, _) => Labelled(refs)
    case _ => BoundsWithin(BoundsOf(q), atom, at)
  }

  predicate BoundsWithin(b: Bounds, atom: seq<Token>, at: nat)
  {
    var copies := if b.max.Some? then b.max.value else b.min + 1;
    && b.min <= MAX_REPETITION && (b.max.Some? ==> b.max.value <= MAX_REPETITION) && b.Ordered()
    && at + copies * (|atom| + 2) <= MAX_POSTFIX_SIZE
    && (b.Removes() || at + |Expansion(atom, b)| <= MAX_POSTFIX_SIZE)
  }

  predicate ItemWithin(i: Item, k: Numbering, at: nat, depth: nat, refs: nat)
  {
    match i
    case Bracket(_, _, inner) => Labelled(refs + |inner| + 1)
    case Category(_, _, _) => Labelled(refs + 1)
    case Grouped(capturing, body) =>
      && (capturing ==> k.captures < MAX_CAPTURES) && depth < MAX_GROUP_NESTING
      && PatternWithin(body, if capturing then k.Capture() else k, at, depth + 1, refs)
    case _ => true
  }

  predicate BranchWithin(b: Branch, k: Numbering, at: nat, depth: nat, refs: nat)
  {
    match b
    case Empty => true
    case Append(front, piece) =>
      var k', refs', at' := AfterBranch(front, k), refs + BranchReferences(front), at + |BranchTokens(front, k)|;
      && BranchWithin(front, k, at, depth, refs)
      && ItemWithin(piece.item, k', at', depth, refs')
      && QuantityWithin(piece.quantity, ItemTokens(piece.item, k'), at', refs' + ItemReferences(piece.item))
  }

  predicate PatternWithin(x: Pattern, k: Numbering, at: nat, depth: nat, refs: nat)
  {
    match x
    case Only(b) => BranchWithin(b, k, at, depth, refs)
    case Or(front, last) =>
      && PatternWithin(front, k, at, depth, refs)
      && BranchWithin(last, AfterPattern(front, k), at + |PatternTokens(front, k)|, depth, refs + References(front))
  }

  /** The whole pattern stays within the scanner's limits. */
  predicate WithinLimits(x: Pattern)
  {
    PatternWithin(x, UNNUMBERED, 0, 0, 0) && |PatternTokens(x, UNNUMBERED)| <= MAX_POSTFIX_SIZE
  }

  // ---------------------------------------------------------------------
  // The scanner accepts exactly these
  // ---------------------------------------------------------------------

  /** The scanner has handed out `refs` class references. */
  predicate HandedOut(s: Scan, refs: nat)
  {
    && |s.classes| == (if Labelled(refs) then refs else MAX_CLASS_INDEX + 1)
    && s.classOverflow == !Labelled(refs)
  }

  function Base(s: Scan): nat { |Placed(s.outer)| + |s.frame.Finished()| }

  lemma {:induction false} ItemWithinIff(i: Item, s: Scan, refs: nat)
    requires HandedOut(s, refs)
    ensures ItemEffect(i, s).Fine? <==>
            ItemWithin(i, NumberingOf(s), Base(s) + |s.frame.Branch()|, Depth(s.outer), refs)
    ensures ItemEffect(i, s).Fine? ==> HandedOut(ItemEffect(i, s).scan, refs + ItemReferences(i))
    decreases i, 2
  {
    match i
    case Grouped(capturing, body) => GroupWithinIff(capturing, body, s, refs);
    case _ =>
  }

  lemma {:induction false} GroupWithinIff(capturing: bool, body: Pattern, s: Scan, refs: nat)
    requires HandedOut(s, refs)
    ensures ItemEffect(Grouped(capturing, body), s).Fine? <==>
            ItemWithin(Grouped(capturing, body), NumberingOf(s), Base(s) + |s.frame.Branch()|, Depth(s.outer), refs)
    ensures ItemEffect(Grouped(capturing, body), s).Fine? ==>
              HandedOut(ItemEffect(Grouped(capturing, body), s).scan, refs + References(body))
    decreases body, 5
  {
    var o := s.Open(capturing);
    if o.Fine? {
      PatternWithinIff(body, o.scan, refs);
      PatternScanned(body, o.scan);
      assert Base(o.scan) == Base(s) + |s.frame.Branch()|;
    }
  }

  lemma {:induction false} QuantityWithinIff(q: Quantity, s: Scan, refs: nat)
    requires HandedOut(s, refs) && s.frame.atom.Some? && !s.frame.quantified
    ensures QuantityEffect(q, s).Fine? <==> QuantityWithin(q, s.frame.atom.value, s.AtomStart(), refs)
    ensures QuantityEffect(q, s).Fine? ==> HandedOut(QuantityEffect(q, s).scan, refs)
  {
  }

  lemma {:induction false} BranchWithinIff(b: Branch, s: Scan, refs: nat)
    requires HandedOut(s, refs) && AtBranchStart(s.frame)
    ensures BranchEffect(b, s).Fine? <==> BranchWithin(b, NumberingOf(s), Base(s), Depth(s.outer), refs)
    ensures BranchEffect(b, s).Fine? ==> HandedOut(BranchEffect(b, s).scan, refs + BranchReferences(b))
    decreases b
  {
    match b
    case Empty =>
    case Append(front, piece) =>
      BranchWithinIff(front, s, refs);
      BranchScanned(front, s);
      AppendWithinIff(front, piece, s, refs, BranchEffect(front, s), BranchWithin(front, NumberingOf(s), Base(s), Depth(s.outer), refs));
  }

  lemma {:induction false} AppendWithinIff(front: Branch, piece: Piece, s: Scan, refs: nat, o: Outcome, within: bool)
    requires HandedOut(s, refs) && AtBranchStart(s.frame) && o == BranchEffect(front, s) && BranchDone(front, s, o)
    requires within == BranchWithin(front, NumberingOf(s), Base(s), Depth(s.outer), refs) && (o.Fine? <==> within)
    requires o.Fine? ==> HandedOut(o.scan, refs + BranchReferences(front))
    ensures var b := Append(front, piece);
            && (BranchEffect(b, s).Fine? <==> BranchWithin(b, NumberingOf(s), Base(s), Depth(s.outer), refs))
            && (BranchEffect(b, s).Fine? ==> HandedOut(BranchEffect(b, s).scan, refs + BranchReferences(b)))
    decreases piece, 1
  {
    if o.Fine? {
      PieceWithinIff(piece, o.scan, refs + BranchReferences(front));
    }
  }

  lemma {:induction false} PieceWithinIff(piece: Piece, s: Scan, refs: nat)
    requires HandedOut(s, refs)
    ensures var at := Base(s) + |s.frame.Branch()|;
            PieceEffect(piece, s).Fine? <==>
            && ItemWithin(piece.item, NumberingOf(s), at, Depth(s.outer), refs)
            && QuantityWithin(piece.quantity, ItemTokens(piece.item, NumberingOf(s)), at, refs + ItemReferences(piece.item))
    ensures PieceEffect(piece, s).Fine? ==> HandedOut(PieceEffect(piece, s).scan, refs + ItemReferences(piece.item))
    decreases piece, 0
  {
    ItemWithinIff(piece.item, s, refs);
    ItemScanned(piece.item, s);
    var o := ItemEffect(piece.item, s);
    if o.Fine? {
      QuantityWithinIff(piece.quantity, o.scan, refs + ItemReferences(piece.item));
    }
  }

  lemma {:induction false} PatternWithinIff(x: Pattern, s: Scan, refs: nat)
    requires HandedOut(s, refs) && AtBranchStart(s.frame) && s.frame.alternatives.None?
    ensures PatternEffect(x, s).Fine? <==> PatternWithin(x, NumberingOf(s), |Placed(s.outer)|, Depth(s.outer), refs)
    ensures PatternEffect(x, s).Fine? ==> HandedOut(PatternEffect(x, s).scan, refs + References(x))
    decreases x, 4
  {
    match x
    case Only(b) => BranchWithinIff(b, s, refs);
    case Or(front, last) =>
      PatternWithinIff(front, s, refs);
      PatternScanned(front, s);
      if PatternEffect(front, s).Fine? {
        BranchWithinIff(last, PatternEffect(front, s).scan.Bar(), refs + References(front));
      }
  }

  /** The scanner accepts a written pattern exactly if the pattern is within the limits. */
  lemma {:induction false} ScansIffWithin(readers: Readers, x: Pattern)
    requires readers.Sound() && Readable(readers, x)
    ensures Finish(Run(readers, PrintPattern(x), 0, START)).Scanned? <==> WithinLimits(x)
  {
    ScanPrinted(readers, x);
    PatternWithinIff(x, START, 0);
    PatternScanned(x, START);
  }
}
