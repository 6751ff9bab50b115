// The token stream of a written pattern, and when it is the postorder of a regex.

module TokenStreams {
  import opened Options
  import opened Utf8
  import opened RuneClasses
  import opened RegexSemantics
  import opened Postfix
  import opened Repetition
  import opened ScanMachine
  import opened PatternSyntax

  /** What has been handed out before a piece: capture numbers and class references. */
  datatype Numbering = Numbering(captures: nat, classes: seq<ClassSpec>)
  {
    function Capture(): Numbering { this.(captures := captures + 1) }

    function Reference(spec: ClassSpec): Numbering
    {
      if |classes| > MAX_CLASS_INDEX then this else this.(classes := classes + [spec])
    }

    /** The numbering at the reference of an item: categories inside brackets take labels first. */
    function At(i: Item): Numbering
    {
      if i.Bracket? && |classes| + |i.inner| <= MAX_CLASS_INDEX then this.(classes := classes + Givens(i.inner)) else this
    }

    /** The label of the next class reference. */
    function Label(): Operand
    {
      Class(if |classes| > MAX_CLASS_INDEX then 0 else |classes|)
    }
  }

  const UNNUMBERED: Numbering := Numbering(0, [])

  function NumberingOf(s: Scan): Numbering { Numbering(s.captures, s.classes) }

  function SpecOf(i: Item): Option<ClassSpec>
  {
    match i
    case Dot => Some(AnyRune)
    case Short(letter, negated) => Some(Shorthand(letter, negated))
    case Bracket(_, c, _) => Some(Given(c))
    case Category(_, _, c) => Some(Given(c))
    case _ => None
  }

  // ---------------------------------------------------------------------
  // Numbering
  // ---------------------------------------------------------------------

  function AfterItem(i: Item, k: Numbering): Numbering
  {
    if i.Grouped? then AfterPattern(i.body, if i.capturing then k.Capture() else k)
    else if SpecOf(i).Some? then k.At(i).Reference(SpecOf(i).value)
    else k
  }

  function AfterBranch(b: Branch, k: Numbering): Numbering
  {
    match b
    case Empty => k
    case Append(front, piece) => AfterItem(piece.item, AfterBranch(front, k))
  }

  function AfterPattern(x: Pattern, k: Numbering): Numbering
  {
    match x
    case Only(b) => AfterBranch(b, k)
    case Or(front, last) => AfterBranch(last, AfterPattern(front, k))
  }

  // ---------------------------------------------------------------------
  // Token streams
  // ---------------------------------------------------------------------

  /** {0} removes the item it follows. */
  predicate Removes(q: Quantity)
  {
    (q.Exactly? || q.AtLeast? || q.FromTo?) && BoundsOf(q).Removes()
  }

  /** A branch has operands unless all its pieces are removed. */
  predicate Live(b: Branch)
  {
    b.Append? && (Live(b.front) || !Removes(b.piece.quantity))
  }

  predicate Vanishes(x: Pattern) { x.Only? && !Live(x.branch) }

  function ItemTag(i: Item, k: Numbering): Operand
    requires !i.Grouped?
  {
    match i
    case Char(r) => Lit(r)
    case Escaped(r) => Lit(EscapeValue(r).value)
    case HexChar(h, l) => Lit(HexDigit(h).value * 16 + HexDigit(l).value)
    case Boundary => WordBoundary
    case LineStart => StartAnchor
    case LineEnd => EndAnchor
    case _ => k.At(i).Label()
  }

  function QuantityTokens(q: Quantity, atom: seq<Token>): seq<Token>
  {
    match q
    case Once => atom
    case Sign(kind, lazy) => atom + [Quantifier(kind, lazy)]
    case _ => if BoundsOf(q).Ordered() && !BoundsOf(q).Removes() then Expansion(atom, BoundsOf(q)) else atom
  }

  function ItemTokens(i: Item, k: Numbering): seq<Token>
  {
    match i
    case Grouped(capturing, body) =>
      if capturing then PatternTokens(body, k.Capture()) + [CaptureGroup(k.captures)] else PatternTokens(body, k)
    case _ => [Atom(ItemTag(i, k))]
  }

  function BranchTokens(b: Branch, k: Numbering): seq<Token>
  {
    match b
    case Empty => []
    case Append(front, piece) =>
      var before := BranchTokens(front, k);
      if Removes(piece.quantity) then before
      else
        before + QuantityTokens(piece.quantity, ItemTokens(piece.item, AfterBranch(front, k))) +
        if Live(front) then [Catenation] else []
  }

  function PatternTokens(x: Pattern, k: Numbering): seq<Token>
  {
    match x
    case Only(b) => BranchTokens(b, k)
    case Or(front, last) => PatternTokens(front, k) + BranchTokens(last, AfterPattern(front, k)) + [Alternation]
  }

  // ---------------------------------------------------------------------
  // The scanner emits these streams
  // ---------------------------------------------------------------------

  /** The only errors a written form can run into: a limit, or a repetition count that is too large or inverted. */
  predicate IsLimit(e: ErrorCode)
  {
    e in {ErrorPatternTooLarge, ErrorTooManyCaptures, ErrorNestingTooDeep, ErrorRepeatSize}
  }

  /** The frame's next atom has been scanned and everything else is as expected. */
  ghost predicate ItemDone(i: Item, s: Scan, o: Outcome)
  {
    match o
    case Fails(e) => IsLimit(e)
    case Fine(s') =>
      && s'.frame == s.frame.Begin().(atom := Some(ItemTokens(i, NumberingOf(s))), quantified := false)
      && s'.outer == s.outer && NumberingOf(s') == AfterItem(i, NumberingOf(s))
  }

  ghost predicate AtBranchStart(f: Frame) { f.before == [] && !f.live && f.atom.None? }

  ghost predicate BranchDone(b: Branch, s: Scan, o: Outcome)
  {
    match o
    case Fails(e) => IsLimit(e)
    case Fine(s') =>
      && s'.frame.alternatives == s.frame.alternatives && s'.frame.Ok()
      && s'.frame.Branch() == BranchTokens(b, NumberingOf(s)) && s'.frame.NeedConcat() == Live(b)
      && s'.outer == s.outer && NumberingOf(s') == AfterBranch(b, NumberingOf(s))
  }

  ghost predicate PatternDone(x: Pattern, s: Scan, o: Outcome)
  {
    match o
    case Fails(e) => IsLimit(e)
    case Fine(s') =>
      && s'.frame.Tokens() == PatternTokens(x, NumberingOf(s))
      && s'.outer == s.outer && NumberingOf(s') == AfterPattern(x, NumberingOf(s))
  }

  lemma {:induction false} ItemScanned(i: Item, s: Scan)
    ensures ItemDone(i, s, ItemEffect(i, s))
    decreases i
  {
    if i.Grouped? {
      var entered := s.Open(i.capturing);
      if entered.Fine? {
        PatternScanned(i.body, entered.scan);
        var o := PatternEffect(i.body, entered.scan);
        if o.Fine? {
          assert o.scan.frame.Tokens() + [] == o.scan.frame.Tokens();
        }
      }
    }
  }

  lemma {:induction false} QuantityScanned(q: Quantity, s: Scan)
    requires s.frame.atom.Some? && !s.frame.quantified
    ensures match QuantityEffect(q, s)
            case Fails(e) => IsLimit(e)
            case Fine(s') =>
              && s'.outer == s.outer && NumberingOf(s') == NumberingOf(s)
              && s'.frame.alternatives == s.frame.alternatives && s'.frame.before == s.frame.before && s'.frame.live == s.frame.live
              && s'.frame.atom == (if Removes(q) then None else Some(QuantityTokens(q, s.frame.atom.value)))
              && (s'.frame.atom.None? ==> s'.frame.quantified)
  {
  }

  lemma {:induction false} BranchScanned(b: Branch, s: Scan)
    requires AtBranchStart(s.frame)
    ensures BranchDone(b, s, BranchEffect(b, s))
    decreases b
  {
    if b.Append? {
      BranchScanned(b.front, s);
      var o := BranchEffect(b.front, s);
      if o.Fine? {
        ItemScanned(b.piece.item, o.scan);
        var o' := ItemEffect(b.piece.item, o.scan);
        if o'.Fine? {
          QuantityScanned(b.piece.quantity, o'.scan);
        }
      }
    }
  }

  /** The tokens the scanner has for a pattern are the pattern's token stream. */
  lemma {:induction false} PatternScanned(x: Pattern, s: Scan)
    requires AtBranchStart(s.frame) && s.frame.alternatives.None?
    ensures PatternDone(x, s, PatternEffect(x, s))
    decreases x
  {
    match x
    case Only(b) => BranchScanned(b, s);
    case Or(front, last) =>
      PatternScanned(front, s);
      var o := PatternEffect(front, s);
      if o.Fine? {
        BranchScanned(last, o.scan.Bar());
      }
  }
}
