// The way back from regex trees to written patterns: non-capturing groups go
// where the operators' precedence asks for them, and the scanner of
// regex_engine.h reads the very same tree again.

module RegexWriter {
  import opened Options
  import opened Utf8
  import opened Encoding
  import opened RuneClasses
  import opened RegexSemantics
  import opened Postfix
  import opened Repetition
  import opened ScanMachine
  import opened PatternBuilder
  import opened PatternSyntax
  import opened TokenStreams
  import opened Limits
  import opened PatternRegexes
  import opened Closures
  import opened Engine
  import opened Compile

  /** A written class. */
  type SetItem = i: Item | SpecOf(i).Some? witness Dot

  /** How the classes of a regex are written, by class number. */
  type Sets = seq<SetItem>

  // ---------------------------------------------------------------------
  // Trees that can be written
  // ---------------------------------------------------------------------

  /** Literals can be encoded, and every class has a written form. */
  predicate Writable(r: Regex, sets: Sets)
  {
    match r
    case Leaf(Lit(c)) => c <= MAX_ENCODABLE
    case Leaf(Class(i)) => i < |sets|
    case Leaf(_) => true
    case Concat(a, b) => Writable(a, sets) && Writable(b, sets)
    case Either(a, b) => Writable(a, sets) && Writable(b, sets)
    case Repeat(_, _, a) => Writable(a, sets)
    case Group(_, a) => Writable(a, sets)
  }

  /** What has been handed out once the scanner has read the tree. */
  function NumbersAfter(r: Regex, k: Numbering, sets: Sets): Numbering
    requires Writable(r, sets)
  {
    match r
    case Leaf(Class(i)) => AfterItem(sets[i], k)
    case Leaf(_) => k
    case Concat(a, b) => NumbersAfter(b, NumbersAfter(a, k, sets), sets)
    case Either(a, b) => NumbersAfter(b, NumbersAfter(a, k, sets), sets)
    case Repeat(_, _, a) => NumbersAfter(a, k, sets)
    case Group(_, a) => NumbersAfter(a, k.Capture(), sets)
  }

  /** Classes and groups are numbered in the order of their first characters, as the scanner numbers them. */
  predicate InOrder(r: Regex, k: Numbering, sets: Sets)
    requires Writable(r, sets)
  {
    match r
    case Leaf(Class(i)) => i == |k.At(sets[i]).classes| <= MAX_CLASS_INDEX
    case Leaf(_) => true
    case Concat(a, b) => InOrder(a, k, sets) && InOrder(b, NumbersAfter(a, k, sets), sets)
    case Either(a, b) => InOrder(a, k, sets) && InOrder(b, NumbersAfter(a, k, sets), sets)
    case Repeat(_, _, a) => InOrder(a, k, sets)
    case Group(id, a) => id == k.captures && InOrder(a, k.Capture(), sets)
  }

  // ---------------------------------------------------------------------
  // The writer
  // ---------------------------------------------------------------------

  /** The weakest construct of the grammar that a tree can be written as: pattern, branch, piece, item. */
  function Level(r: Regex): nat
  {
    match r
    case Either(_, _) => 0
    case Concat(_, _) => 1
    case Repeat(_, _, _) => 2
    case _ => 3
  }

  lemma SpecialEscapes(c: Rune)
    requires IsSpecial(c)
    ensures EscapeValue(c) == Some(c)
  {
    var k :| 0 <= k < |SPECIALS| && SPECIALS[k] as int == c;
    assert k < 14;
  }

  function WriteLeaf(tag: Operand, sets: Sets): Item
    requires Writable(Leaf(tag), sets)
  {
    match tag
    case Lit(c) => if IsSpecial(c) then (SpecialEscapes(c); Escaped(c)) else Char(c)
    case Class(i) => sets[i]
    case WordBoundary => Boundary
    case StartAnchor => LineStart
    case EndAnchor => LineEnd
  }

  /** An item stands for itself; any weaker construct is put into a group. */
  function WriteItem(r: Regex, sets: Sets): Item
    requires Writable(r, sets)
    decreases r, (Level(r) - 3) % 4
  {
    match r
    case Leaf(tag) => WriteLeaf(tag, sets)
    case Group(_, a) => Grouped(true, WritePattern(a, sets))
    case _ => Grouped(false, WritePattern(r, sets))
  }

  function WritePiece(r: Regex, sets: Sets): Piece
    requires Writable(r, sets)
    decreases r, (Level(r) - 2) % 4
  {
    match r
    case Repeat(kind, lazy, a) => Piece(WriteItem(a, sets), Sign(kind, lazy))
    case _ => Piece(WriteItem(r, sets), Once)
  }

  /** A catenation goes on to the left without a group; on the right it needs one. */
  function WriteBranch(r: Regex, sets: Sets): Branch
    requires Writable(r, sets)
    decreases r, (Level(r) - 1) % 4
  {
    match r
    case Concat(a, b) => Append(WriteBranch(a, sets), WritePiece(b, sets))
    case _ => Append(Empty, WritePiece(r, sets))
  }

  function WritePattern(r: Regex, sets: Sets): Pattern
    requires Writable(r, sets)
    decreases r, Level(r) % 4
  {
    match r
    case Either(a, b) => Or(WritePattern(a, sets), WriteBranch(b, sets))
    case _ => Only(WriteBranch(r, sets))
  }

  // ---------------------------------------------------------------------
  // The written pattern has that regex
  // ---------------------------------------------------------------------

  ghost predicate ItemIs(i: Item, r: Regex, k: Numbering, after: Numbering)
  {
    ItemComplete(i) && ItemRegex(i, k) == r && AfterItem(i, k) == after
  }

  ghost predicate PieceIs(p: Piece, r: Regex, k: Numbering, after: Numbering)
  {
    && ItemComplete(p.item) && QuantityRegex(p.quantity, ItemRegex(p.item, k)) == r
    && !Removes(p.quantity) && AfterItem(p.item, k) == after
  }

  ghost predicate BranchIs(b: Branch, r: Regex, k: Numbering, after: Numbering)
  {
    BranchComplete(b) && Live(b) && BranchRegex(b, k) == r && AfterBranch(b, k) == after
  }

  ghost predicate PatternIs(x: Pattern, r: Regex, k: Numbering, after: Numbering)
  {
    Complete(x) && !Vanishes(x) && PatternRegex(x, k) == r && AfterPattern(x, k) == after
  }

  lemma {:induction false} LeafWritten(tag: Operand, k: Numbering, sets: Sets)
    requires Writable(Leaf(tag), sets) && InOrder(Leaf(tag), k, sets)
    ensures ItemIs(WriteLeaf(tag, sets), Leaf(tag), k, NumbersAfter(Leaf(tag), k, sets))
  {
    if tag.Lit? && IsSpecial(tag.rune) {
      SpecialEscapes(tag.rune);
    }
  }

  lemma {:induction false} ItemWritten(r: Regex, k: Numbering, sets: Sets)
    requires Writable(r, sets) && InOrder(r, k, sets)
    ensures ItemIs(WriteItem(r, sets), r, k, NumbersAfter(r, k, sets))
    decreases r, (Level(r) - 3) % 4
  {
    match r
    case Leaf(tag) => LeafWritten(tag, k, sets);
    case Group(_, a) => PatternWritten(a, k.Capture(), sets);
    case _ => PatternWritten(r, k, sets);
  }

  lemma {:induction false} PieceWritten(r: Regex, k: Numbering, sets: Sets)
    requires Writable(r, sets) && InOrder(r, k, sets)
    ensures PieceIs(WritePiece(r, sets), r, k, NumbersAfter(r, k, sets))
    decreases r, (Level(r) - 2) % 4
  {
    match r
    case Repeat(_, _, a) => ItemWritten(a, k, sets);
    case _ => ItemWritten(r, k, sets);
  }

  lemma {:induction false} AppendWritten(front: Branch, p: Piece, a: Regex, b: Regex, k: Numbering, mid: Numbering, after: Numbering)
    requires BranchIs(front, a, k, mid) && PieceIs(p, b, mid, after)
    ensures BranchIs(Append(front, p), Concat(a, b), k, after)
  {
  }

  lemma {:induction false} FirstWritten(p: Piece, r: Regex, k: Numbering, after: Numbering)
    requires PieceIs(p, r, k, after)
    ensures BranchIs(Append(Empty, p), r, k, after)
  {
  }

  lemma {:induction false} BranchWritten(r: Regex, k: Numbering, sets: Sets)
    requires Writable(r, sets) && InOrder(r, k, sets)
    ensures BranchIs(WriteBranch(r, sets), r, k, NumbersAfter(r, k, sets))
    decreases r, (Level(r) - 1) % 4
  {
    match r
    case Concat(a, b) =>
      var mid := NumbersAfter(a, k, sets);
      BranchWritten(a, k, sets);
      PieceWritten(b, mid, sets);
      AppendWritten(WriteBranch(a, sets), WritePiece(b, sets), a, b, k, mid, NumbersAfter(r, k, sets));
    case _ =>
      PieceWritten(r, k, sets);
      FirstWritten(WritePiece(r, sets), r, k, NumbersAfter(r, k, sets));
  }

  /** The pattern that is written for a tree denotes that tree. */
  lemma {:induction false} PatternWritten(r: Regex, k: Numbering, sets: Sets)
    requires Writable(r, sets) && InOrder(r, k, sets)
    ensures PatternIs(WritePattern(r, sets), r, k, NumbersAfter(r, k, sets))
    decreases r, Level(r) % 4
  {
    match r
    case Either(a, b) =>
      PatternWritten(a, k, sets);
      BranchWritten(b, NumbersAfter(a, k, sets), sets);
    case _ => BranchWritten(r, k, sets);
  }

  // ---------------------------------------------------------------------
  // The scanner reads it
  // ---------------------------------------------------------------------

  /** The brackets among the written classes are read as the classes they stand for. */
  ghost predicate SetsReadable(readers: Readers, sets: Sets)
  {
    forall i :: 0 <= i < |sets| ==> ItemReadable(readers, sets[i])
  }

  lemma {:induction false} ItemIsReadable(readers: Readers, r: Regex, sets: Sets)
    requires Writable(r, sets) && SetsReadable(readers, sets)
    ensures ItemReadable(readers, WriteItem(r, sets))
    decreases r, (Level(r) - 3) % 4
  {
    match r
    case Leaf(_) =>
    case Group(_, a) => PatternIsReadable(readers, a, sets);
    case _ => PatternIsReadable(readers, r, sets);
  }

  lemma {:induction false} PieceIsReadable(readers: Readers, r: Regex, sets: Sets)
    requires Writable(r, sets) && SetsReadable(readers, sets)
    ensures ItemReadable(readers, WritePiece(r, sets).item)
    decreases r, (Level(r) - 2) % 4
  {
    match r
    case Repeat(_, _, a) => ItemIsReadable(readers, a, sets);
    case _ => ItemIsReadable(readers, r, sets);
  }

  lemma {:induction false} BranchIsReadable(readers: Readers, r: Regex, sets: Sets)
    requires Writable(r, sets) && SetsReadable(readers, sets)
    ensures BranchReadable(readers, WriteBranch(r, sets))
    decreases r, (Level(r) - 1) % 4
  {
    match r
    case Concat(a, b) =>
      BranchIsReadable(readers, a, sets);
      PieceIsReadable(readers, b, sets);
    case _ => PieceIsReadable(readers, r, sets);
  }

  lemma {:induction false} PatternIsReadable(readers: Readers, r: Regex, sets: Sets)
    requires Writable(r, sets) && SetsReadable(readers, sets)
    ensures Readable(readers, WritePattern(r, sets))
    decreases r, Level(r) % 4
  {
    match r
    case Either(a, b) =>
      PatternIsReadable(readers, a, sets);
      BranchIsReadable(readers, b, sets);
    case _ => BranchIsReadable(readers, r, sets);
  }

  /** Scanning the written form of a tree yields the tree's postorder, unless it exceeds a limit. */
  lemma WriterScans(readers: Readers, r: Regex, sets: Sets)
    requires readers.Sound() && Writable(r, sets) && InOrder(r, UNNUMBERED, sets) && SetsReadable(readers, sets)
    ensures match Finish(Run(readers, PrintPattern(WritePattern(r, sets)), 0, START))
            case Rejected(_) => !WithinLimits(WritePattern(r, sets))
            case Scanned(p, s) => p == Postorder(r) && NumberingOf(s) == NumbersAfter(r, UNNUMBERED, sets)
  {
    var x := WritePattern(r, sets);
    PatternIsReadable(readers, r, sets);
    PatternWritten(r, UNNUMBERED, sets);
    PatternPostorder(x, UNNUMBERED);
    ScanVerdict(readers, x);
  }

  /** A tree that is written, scanned and compiled is the pattern of the engine that comes out. */
  method CompileRegex(r: Regex, sets: Sets, readers: Readers) returns (e: RegexEngine)
    requires readers.Sound() && Writable(r, sets) && InOrder(r, UNNUMBERED, sets) && SetsReadable(readers, sets)
    ensures e.errorCode == NoError <==> WithinLimits(WritePattern(r, sets)) && CacheFits(e.states, e.hasConditionals)
    ensures e.errorCode == NoError ==> e.Ready() && e.pattern == Some(r)
  {
    PatternIsReadable(readers, r, sets);
    PatternWritten(r, UNNUMBERED, sets);
    e := CompilePattern(WritePattern(r, sets), readers);
  }
}
