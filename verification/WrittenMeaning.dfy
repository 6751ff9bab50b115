// The meaning of written patterns, read off the syntax tree, and the proof
// that the regex the scanner's tokens stand for has this meaning.

module WrittenMeaning {
  import opened Utf8
  import opened RuneClasses
  import opened RegexSemantics
  import opened Repetition
  import opened ScanMachine
  import opened ClassTable
  import opened PatternSyntax
  import opened TokenStreams
  import opened Limits
  import opened PatternRegexes

  // ---------------------------------------------------------------------
  // Meaning of the syntax
  // ---------------------------------------------------------------------

  ghost predicate SpecMember(spec: ClassSpec, r: Rune)
  {
    match spec
    case AnyRune => IsScalar(r)
    case Shorthand(letter, negated) => IsScalar(r) && ShorthandMember(letter, r) != negated
    case Given(c) => InRanges(c.ranges, r)
  }

  /** How often a quantity lets its item match in a row. */
  predicate Admitted(q: Quantity, n: nat)
  {
    match q
    case Once => n == 1
    case Sign(ZeroOrOne, _) => n <= 1
    case Sign(ZeroOrMore, _) => true
    case Sign(OneOrMore, _) => n >= 1
    case _ => BoundsOf(q).Admits(n)
  }

  /** The item reads the one rune at boundary `a`. */
  ghost predicate ReadsOne(t: Subject, a: nat, b: nat)
  {
    a < |t.runes| && b == a + 1
  }

  ghost predicate ItemMeans(i: Item, t: Subject, a: nat, b: nat)
    decreases i, 0
  {
    match i
    case Char(r) => ReadsOne(t, a, b) && t.runes[a] == r
    case Escaped(r) => ReadsOne(t, a, b) && t.runes[a] == EscapeValue(r).value
    case HexChar(h, l) => ReadsOne(t, a, b) && t.runes[a] == HexDigit(h).value * 16 + HexDigit(l).value
    case Boundary => a == b <= |t.runes| && FlagsAt(t, a).boundary
    case LineStart => a == b <= |t.runes| && FlagsAt(t, a).atStart
    case LineEnd => a == b <= |t.runes| && FlagsAt(t, a).atEnd
    case Grouped(_, body) => PatternMeans(body, t, a, b)
    case _ => ReadsOne(t, a, b) && SpecMember(SpecOf(i).value, t.runes[a])
  }

  /** `n` matches of the item in a row. */
  ghost predicate Times(i: Item, n: nat, t: Subject, a: nat, b: nat)
    decreases i, n + 1
  {
    if n == 0 then a == b <= |t.runes|
    else exists m :: ItemMeans(i, t, a, m) && Times(i, n - 1, t, m, b)
  }

  ghost predicate PieceMeans(p: Piece, t: Subject, a: nat, b: nat)
    decreases p, 0
  {
    exists n: nat :: Admitted(p.quantity, n) && Times(p.item, n, t, a, b)
  }

  ghost predicate BranchMeans(branch: Branch, t: Subject, a: nat, b: nat)
    decreases branch, 0
  {
    match branch
    case Empty => a == b <= |t.runes|
    case Append(front, piece) => exists m :: BranchMeans(front, t, a, m) && PieceMeans(piece, t, m, b)
  }

  ghost predicate PatternMeans(x: Pattern, t: Subject, a: nat, b: nat)
    decreases x, 0
  {
    match x
    case Only(branch) => BranchMeans(branch, t, a, b)
    case Or(front, last) => PatternMeans(front, t, a, b) || BranchMeans(last, t, a, b)
  }

  // ---------------------------------------------------------------------
  // Side conditions
  // ---------------------------------------------------------------------

  /** Lower bounds do not exceed upper bounds; the scanner rejects the others. */
  predicate QuantityOrdered(q: Quantity)
  {
    q.Exactly? || q.AtLeast? || q.FromTo? ==> BoundsOf(q).Ordered()
  }

  predicate BranchOrdered(b: Branch)
  {
    b.Append? ==> BranchOrdered(b.front) && QuantityOrdered(b.piece.quantity) && ItemOrdered(b.piece.item)
  }

  predicate ItemOrdered(i: Item) { i.Grouped? ==> PatternOrdered(i.body) }

  predicate PatternOrdered(x: Pattern)
  {
    match x
    case Only(b) => BranchOrdered(b)
    case Or(front, last) => PatternOrdered(front) && BranchOrdered(last)
  }

  /** `k'` is `k` with at most `n` more references. */
  ghost predicate Extends(k: Numbering, k': Numbering, n: nat)
  {
    k.classes <= k'.classes && |k'.classes| <= |k.classes| + n
  }

  lemma {:induction false} ItemExtends(i: Item, k: Numbering)
    ensures Extends(k, AfterItem(i, k), ItemReferences(i))
    decreases i
  {
    if i.Grouped? {
      PatternExtends(i.body, if i.capturing then k.Capture() else k);
    }
  }

  lemma {:induction false} BranchExtends(b: Branch, k: Numbering)
    ensures Extends(k, AfterBranch(b, k), BranchReferences(b))
    decreases b
  {
    if b.Append? {
      BranchExtends(b.front, k);
      ItemExtends(b.piece.item, AfterBranch(b.front, k));
    }
  }

  lemma {:induction false} PatternExtends(x: Pattern, k: Numbering)
    ensures Extends(k, AfterPattern(x, k), References(x))
    decreases x
  {
    match x
    case Only(b) => BranchExtends(b, k);
    case Or(front, last) =>
      PatternExtends(front, k);
      BranchExtends(last, AfterPattern(front, k));
  }

  // ---------------------------------------------------------------------
  // Labels
  // ---------------------------------------------------------------------

  ghost predicate SameSpec(a: ClassSpec, b: ClassSpec)
  {
    forall r: Rune :: SpecMember(a, r) <==> SpecMember(b, r)
  }

  /** A label is left for the class, or the first class, whose label it shares, has the same members. */
  ghost predicate RightLabel(spec: ClassSpec, k: Numbering)
  {
    |k.classes| <= MAX_CLASS_INDEX || SameSpec(k.classes[0], spec)
  }

  /** Every class that is not removed has a right label. */
  ghost predicate ItemLabelled(i: Item, k: Numbering)
  {
    if i.Grouped? then PatternLabelled(i.body, if i.capturing then k.Capture() else k)
    else SpecOf(i).Some? ==> RightLabel(SpecOf(i).value, k.At(i))
  }

  ghost predicate BranchLabelled(b: Branch, k: Numbering)
  {
    b.Append? ==>
      BranchLabelled(b.front, k) && (Removes(b.piece.quantity) || ItemLabelled(b.piece.item, AfterBranch(b.front, k)))
  }

  ghost predicate PatternLabelled(x: Pattern, k: Numbering)
  {
    match x
    case Only(b) => BranchLabelled(b, k)
    case Or(front, last) => PatternLabelled(front, k) && BranchLabelled(last, AfterPattern(front, k))
  }

  lemma {:induction false} FewItem(i: Item, k: Numbering)
    requires |k.classes| + ItemReferences(i) <= MAX_CLASS_INDEX + 1
    ensures ItemLabelled(i, k)
    decreases i
  {
    if i.Grouped? {
      FewReferences(i.body, if i.capturing then k.Capture() else k);
    }
  }

  lemma {:induction false} FewBranch(b: Branch, k: Numbering)
    requires |k.classes| + BranchReferences(b) <= MAX_CLASS_INDEX + 1
    ensures BranchLabelled(b, k)
    decreases b
  {
    if b.Append? {
      FewBranch(b.front, k);
      BranchExtends(b.front, k);
      FewItem(b.piece.item, AfterBranch(b.front, k));
    }
  }

  /** No pattern with at most as many references as there are labels runs out of them. */
  lemma {:induction false} FewReferences(x: Pattern, k: Numbering)
    requires |k.classes| + References(x) <= MAX_CLASS_INDEX + 1
    ensures PatternLabelled(x, k)
    decreases x
  {
    match x
    case Only(b) => FewBranch(b, k);
    case Or(front, last) =>
      FewReferences(front, k);
      PatternExtends(front, k);
      FewBranch(last, AfterPattern(front, k));
  }

  /** The text of one rune. */
  ghost function OneRune(classes: seq<RuneClass>, r: Rune): Subject
  {
    Subject(classes, [r], [0, 1], true, false)
  }

  /** A class matches as written, whatever the rune, exactly if its label is right. */
  lemma {:induction false} LabelExact(i: Item, k: Numbering, classes: seq<RuneClass>)
    requires SpecOf(i).Some? && AllFit(classes, AfterItem(i, k).classes)
    ensures (forall r: Rune :: Matches(Leaf(ItemTag(i, k)), OneRune(classes, r), 0, 1) <==> ItemMeans(i, OneRune(classes, r), 0, 1))
            <==> RightLabel(SpecOf(i).value, k.At(i))
  {
    var spec := SpecOf(i).value;
    var n := |k.At(i).classes|;
    if n <= MAX_CLASS_INDEX {
      assert AfterItem(i, k).classes[n] == spec;
    }
    var ref := if n > MAX_CLASS_INDEX then 0 else n;
    var met := AfterItem(i, k).classes[ref];
    assert Fits(classes[ref], met);
    forall r: Rune
      ensures Matches(Leaf(ItemTag(i, k)), OneRune(classes, r), 0, 1) <==> SpecMember(met, r)
      ensures ItemMeans(i, OneRune(classes, r), 0, 1) <==> SpecMember(spec, r)
    {
      FitsMember(classes[ref], met, r);
    }
  }

  lemma FitsMember(c: RuneClass, spec: ClassSpec, r: Rune)
    requires Fits(c, spec)
    ensures InRanges(c.ranges, r) <==> SpecMember(spec, r)
  {
  }

  /** The subject's class table has the classes numbered so far. */
  ghost predicate Provides(t: Subject, k: Numbering)
  {
    && |k.classes| <= |t.classes|
    && forall j :: 0 <= j < |k.classes| ==> Fits(t.classes[j], k.classes[j])
  }

  lemma ProvidesPrefix(t: Subject, k: Numbering, k': Numbering)
    requires k.classes <= k'.classes && Provides(t, k')
    ensures Provides(t, k)
  {
  }

  // ---------------------------------------------------------------------
  // The regex of a pattern has the pattern's meaning
  // ---------------------------------------------------------------------

  lemma {:induction false} LeafMeaning(i: Item, k: Numbering, t: Subject, a: nat, b: nat)
    requires !i.Grouped? && ItemLabelled(i, k) && Provides(t, AfterItem(i, k))
    ensures Matches(Leaf(ItemTag(i, k)), t, a, b) <==> ItemMeans(i, t, a, b)
  {
    if SpecOf(i).Some? && a < |t.runes| {
      var n := |k.At(i).classes|;
      var ref := if n > MAX_CLASS_INDEX then 0 else n;
      if n <= MAX_CLASS_INDEX {
        assert AfterItem(i, k).classes[ref] == SpecOf(i).value;
      }
      FitsMember(t.classes[ref], AfterItem(i, k).classes[ref], t.runes[a]);
    }
  }

  lemma {:induction false} SignMeaning(kind: RepeatKind, lazy: bool, r: Regex, t: Subject, a: nat, b: nat)
    ensures Matches(Repeat(kind, lazy, r), t, a, b) <==> exists n: nat :: Admitted(Sign(kind, lazy), n) && Power(r, n, t, a, b)
  {
    var q := Sign(kind, lazy);
    match kind
    case ZeroOrOne =>
      OnePower(r, t, a, b);
      if a == b <= |t.runes| { assert Admitted(q, 0) && Power(r, 0, t, a, b); }
      if Matches(r, t, a, b) { assert Admitted(q, 1) && Power(r, 1, t, a, b); }
    case ZeroOrMore =>
      if n: nat :| Power(r, n, t, a, b) { assert Admitted(q, n); }
    case OneOrMore =>
      if n: nat :| n >= 1 && Power(r, n, t, a, b) { assert Admitted(q, n); }
  }

  lemma {:induction false} QuantityMeaning(q: Quantity, r: Regex, t: Subject, a: nat, b: nat)
    requires QuantityOrdered(q) && !Removes(q)
    ensures Matches(QuantityRegex(q, r), t, a, b) <==> exists n: nat :: Admitted(q, n) && Power(r, n, t, a, b)
  {
    match q
    case Once =>
      OnePower(r, t, a, b);
      if Matches(r, t, a, b) { assert Admitted(q, 1) && Power(r, 1, t, a, b); }
    case Sign(kind, lazy) => SignMeaning(kind, lazy, r, t, a, b);
    case _ =>
      ExpansionMeaning(r, BoundsOf(q), t, a, b);
      if n: nat :| BoundsOf(q).Admits(n) && Power(r, n, t, a, b) { assert Admitted(q, n); }
  }

  lemma {:induction false} ItemMeaning(i: Item, k: Numbering, t: Subject, a: nat, b: nat)
    requires ItemComplete(i) && ItemOrdered(i)
    requires ItemLabelled(i, k) && Provides(t, AfterItem(i, k))
    ensures Matches(ItemRegex(i, k), t, a, b) <==> ItemMeans(i, t, a, b)
    decreases i, 0
  {
    match i
    case Grouped(capturing, body) =>
      PatternMeaning(body, if capturing then k.Capture() else k, t, a, b);
    case _ => LeafMeaning(i, k, t, a, b);
  }

  lemma {:induction false} TimesMeaning(i: Item, n: nat, k: Numbering, t: Subject, a: nat, b: nat)
    requires ItemComplete(i) && ItemOrdered(i)
    requires ItemLabelled(i, k) && Provides(t, AfterItem(i, k))
    ensures Power(ItemRegex(i, k), n, t, a, b) <==> Times(i, n, t, a, b)
    decreases i, n + 1
  {
    var r := ItemRegex(i, k);
    if n > 0 {
      forall m: nat
        ensures Matches(r, t, a, m) <==> ItemMeans(i, t, a, m)
        ensures Power(r, n - 1, t, m, b) <==> Times(i, n - 1, t, m, b)
      {
        ItemMeaning(i, k, t, a, m);
        TimesMeaning(i, n - 1, k, t, m, b);
      }
      assert Power(r, n, t, a, b) <==> exists m :: Matches(r, t, a, m) && Power(r, n - 1, t, m, b);
      assert Times(i, n, t, a, b) <==> exists m :: ItemMeans(i, t, a, m) && Times(i, n - 1, t, m, b);
    }
  }

  lemma {:induction false} PieceMeaning(p: Piece, k: Numbering, t: Subject, a: nat, b: nat)
    requires ItemComplete(p.item) && ItemOrdered(p.item) && QuantityOrdered(p.quantity) && !Removes(p.quantity)
    requires ItemLabelled(p.item, k) && Provides(t, AfterItem(p.item, k))
    ensures Matches(QuantityRegex(p.quantity, ItemRegex(p.item, k)), t, a, b) <==> PieceMeans(p, t, a, b)
    decreases p, 0
  {
    var q, r := p.quantity, ItemRegex(p.item, k);
    QuantityMeaning(q, r, t, a, b);
    forall n: nat
      ensures Power(r, n, t, a, b) <==> Times(p.item, n, t, a, b)
    {
      TimesMeaning(p.item, n, k, t, a, b);
    }
  }

  lemma RemovedMeans(p: Piece, t: Subject, a: nat, b: nat)
    requires Removes(p.quantity) && QuantityOrdered(p.quantity)
    ensures PieceMeans(p, t, a, b) <==> a == b <= |t.runes|
  {
    if a == b <= |t.runes| {
      assert Admitted(p.quantity, 0) && Times(p.item, 0, t, a, b);
    }
  }

  lemma {:induction false} DeadMeans(branch: Branch, t: Subject, a: nat, b: nat)
    requires !Live(branch) && BranchOrdered(branch)
    ensures BranchMeans(branch, t, a, b) <==> a == b <= |t.runes|
    decreases branch
  {
    if branch.Append? {
      forall m: nat
        ensures BranchMeans(branch.front, t, a, m) <==> a == m <= |t.runes|
        ensures PieceMeans(branch.piece, t, m, b) <==> m == b <= |t.runes|
      {
        DeadMeans(branch.front, t, a, m);
        RemovedMeans(branch.piece, t, m, b);
      }
      if a == b <= |t.runes| {
        assert BranchMeans(branch.front, t, a, a) && PieceMeans(branch.piece, t, a, b);
      }
    }
  }

  lemma {:induction false} BranchMeaning(branch: Branch, k: Numbering, t: Subject, a: nat, b: nat)
    requires BranchComplete(branch) && BranchOrdered(branch) && Live(branch)
    requires BranchLabelled(branch, k) && Provides(t, AfterBranch(branch, k))
    ensures Matches(BranchRegex(branch, k), t, a, b) <==> BranchMeans(branch, t, a, b)
    decreases branch, 1
  {
    var front, piece := branch.front, branch.piece;
    var k' := AfterBranch(front, k);
    BranchExtends(front, k);
    ItemExtends(piece.item, k');
    ProvidesPrefix(t, k', AfterBranch(branch, k));
    if Removes(piece.quantity) {
      forall m: nat
        ensures PieceMeans(piece, t, m, b) <==> m == b <= |t.runes|
      {
        RemovedMeans(piece, t, m, b);
      }
      BranchMeaning(front, k, t, a, b);
      MatchesEnd(BranchRegex(front, k), t, a, b);
    } else {
      LivePieceMeaning(front, piece, k, t, a, b);
    }
  }

  lemma MatchesEnd(r: Regex, t: Subject, a: nat, b: nat)
    ensures Matches(r, t, a, b) ==> b <= |t.runes|
  {
    if Matches(r, t, a, b) {
      MatchesInRange(r, t, a, b);
    }
  }

  lemma {:induction false} LivePieceMeaning(front: Branch, piece: Piece, k: Numbering, t: Subject, a: nat, b: nat)
    requires BranchComplete(Append(front, piece)) && BranchOrdered(Append(front, piece)) && !Removes(piece.quantity)
    requires BranchLabelled(front, k) && ItemLabelled(piece.item, AfterBranch(front, k))
    requires Provides(t, AfterBranch(front, k)) && Provides(t, AfterItem(piece.item, AfterBranch(front, k)))
    ensures Matches(BranchRegex(Append(front, piece), k), t, a, b) <==> BranchMeans(Append(front, piece), t, a, b)
    decreases Append(front, piece), 0
  {
    var k' := AfterBranch(front, k);
    var r := QuantityRegex(piece.quantity, ItemRegex(piece.item, k'));
    forall m: nat
      ensures Matches(r, t, m, b) <==> PieceMeans(piece, t, m, b)
    {
      PieceMeaning(piece, k', t, m, b);
    }
    if Live(front) {
      var f := BranchRegex(front, k);
      forall m: nat
        ensures Matches(f, t, a, m) <==> BranchMeans(front, t, a, m)
      {
        BranchMeaning(front, k, t, a, m);
      }
      assert Matches(Concat(f, r), t, a, b) <==> exists m :: Matches(f, t, a, m) && Matches(r, t, m, b);
    } else {
      forall m: nat
        ensures BranchMeans(front, t, a, m) <==> a == m <= |t.runes|
      {
        DeadMeans(front, t, a, m);
      }
      MatchesStart(r, t, a, b);
      if Matches(r, t, a, b) {
        assert BranchMeans(front, t, a, a) && PieceMeans(piece, t, a, b);
      }
    }
  }

  lemma MatchesStart(r: Regex, t: Subject, a: nat, b: nat)
    ensures Matches(r, t, a, b) ==> a <= |t.runes|
  {
    if Matches(r, t, a, b) {
      MatchesInRange(r, t, a, b);
    }
  }

  /**
   * The regex of a complete pattern matches what the pattern means, if every
   * class has a right label.
   */
  lemma {:induction false} PatternMeaning(x: Pattern, k: Numbering, t: Subject, a: nat, b: nat)
    requires Complete(x) && PatternOrdered(x) && !Vanishes(x)
    requires PatternLabelled(x, k) && Provides(t, AfterPattern(x, k))
    ensures Matches(PatternRegex(x, k), t, a, b) <==> PatternMeans(x, t, a, b)
    decreases x, 1
  {
    match x
    case Only(branch) => BranchMeaning(branch, k, t, a, b);
    case Or(front, last) =>
      var k' := AfterPattern(front, k);
      PatternExtends(front, k);
      BranchExtends(last, k');
      ProvidesPrefix(t, k', AfterPattern(x, k));
      PatternMeaning(front, k, t, a, b);
      BranchMeaning(last, k', t, a, b);
  }

  /** A pattern that vanishes matches the empty stretches. */
  lemma VanishedMeaning(x: Pattern, t: Subject, a: nat, b: nat)
    requires PatternOrdered(x) && Vanishes(x)
    ensures PatternMeans(x, t, a, b) <==> a == b <= |t.runes|
  {
    DeadMeans(x.branch, t, a, b);
  }
}
