// From a written pattern to an engine: what the engine matches is what the
// pattern means, and what it captures are matches of the pattern's groups.

module Compile {
  import opened Options
  import opened Utf8
  import opened RuneClasses
  import opened RegexSemantics
  import opened CaptureSpans
  import opened Postfix
  import opened Repetition
  import opened ScanMachine
  import opened ClassTable
  import opened PatternBuilder
  import opened PatternSyntax
  import opened TokenStreams
  import opened Limits
  import opened Closures
  import opened Thompson
  import opened PatternRegexes
  import opened WrittenMeaning
  import opened Reachability
  import opened Engine
  import opened CaptureMatch

  // ---------------------------------------------------------------------
  // Group numbers
  // ---------------------------------------------------------------------

  /** Groups numbered outside [lo, hi) do not occur; the others are copies of one group. */
  ghost predicate GroupsWithin(r: Regex, id: nat, lo: nat, hi: nat, body: Regex)
  {
    IsGroup(r, id, body) && (!(lo <= id < hi) ==> GroupBodies(r, id) == {})
  }

  lemma {:induction false} CopiesGroups(r: Regex, n: nat, id: nat)
    requires n > 0
    ensures GroupBodies(CopiesOf(r, n), id) == GroupBodies(r, id)
  {
    if n > 1 {
      CopiesGroups(r, n - 1, id);
    }
  }

  lemma {:induction false} OptionalGroups(r: Regex, n: nat, k: nat, id: nat)
    requires n + k > 0
    ensures GroupBodies(OptionalOf(r, n, k), id) == GroupBodies(r, id)
    decreases k
  {
    var option := Repeat(ZeroOrOne, false, r);
    assert GroupBodies(option, id) == GroupBodies(r, id);
    if k == 0 {
      CopiesGroups(r, n, id);
    } else if n + k > 1 {
      OptionalGroups(r, n, k - 1, id);
    }
  }

  lemma QuantityGroups(q: Quantity, r: Regex, id: nat)
    ensures GroupBodies(QuantityRegex(q, r), id) == GroupBodies(r, id)
  {
    if (q.Exactly? || q.AtLeast? || q.FromTo?) && BoundsOf(q).Ordered() && !BoundsOf(q).Removes() {
      var b := BoundsOf(q);
      match b.max
      case Some(max) => OptionalGroups(r, b.min, max - b.min, id);
      case None =>
        assert GroupBodies(Repeat(ZeroOrMore, false, r), id) == GroupBodies(r, id);
        if b.min > 0 {
          CopiesGroups(r, b.min, id);
        }
    }
  }

  /** Capture numbers only grow. */
  lemma {:induction false} NumbersGrow(x: Pattern, k: Numbering)
    ensures AfterPattern(x, k).captures >= k.captures
    decreases x
  {
    match x
    case Only(b) => BranchNumbersGrow(b, k);
    case Or(front, last) =>
      NumbersGrow(front, k);
      BranchNumbersGrow(last, AfterPattern(front, k));
  }

  lemma {:induction false} BranchNumbersGrow(b: Branch, k: Numbering)
    ensures AfterBranch(b, k).captures >= k.captures
    decreases b
  {
    if b.Append? {
      BranchNumbersGrow(b.front, k);
      ItemNumbersGrow(b.piece.item, AfterBranch(b.front, k));
    }
  }

  lemma {:induction false} ItemNumbersGrow(i: Item, k: Numbering)
    ensures AfterItem(i, k).captures >= k.captures
    decreases i
  {
    if i.Grouped? {
      NumbersGrow(i.body, if i.capturing then k.Capture() else k);
    }
  }

  lemma GroupsJoin(a: Regex, b: Regex, r: Regex, id: nat, lo: nat, mid: nat, hi: nat, x: Regex, y: Regex) returns (body: Regex)
    requires r == Concat(a, b) || r == Either(a, b)
    requires lo <= mid <= hi
    requires GroupsWithin(a, id, lo, mid, x) && GroupsWithin(b, id, mid, hi, y)
    ensures GroupsWithin(r, id, lo, hi, body)
  {
    body := if id < mid then x else y;
  }

  lemma {:induction false} ItemGroups(i: Item, k: Numbering, id: nat) returns (body: Regex)
    requires ItemComplete(i)
    ensures GroupsWithin(ItemRegex(i, k), id, k.captures, AfterItem(i, k).captures, body)
    decreases i
  {
    match i
    case Grouped(capturing, inner) =>
      body := PatternGroups(inner, if capturing then k.Capture() else k, id);
      if capturing && id == k.captures {
        body := PatternRegex(inner, k.Capture());
      }
      NumbersGrow(inner, k.Capture());
    case _ => body := Leaf(WordBoundary);
  }

  lemma {:induction false} BranchGroups(b: Branch, k: Numbering, id: nat) returns (body: Regex)
    requires BranchComplete(b) && Live(b)
    ensures GroupsWithin(BranchRegex(b, k), id, k.captures, AfterBranch(b, k).captures, body)
    decreases b
  {
    var k' := AfterBranch(b.front, k);
    BranchNumbersGrow(b.front, k);
    ItemNumbersGrow(b.piece.item, k');
    if Removes(b.piece.quantity) {
      body := BranchGroups(b.front, k, id);
    } else {
      var r := ItemRegex(b.piece.item, k');
      body := ItemGroups(b.piece.item, k', id);
      QuantityGroups(b.piece.quantity, r, id);
      if Live(b.front) {
        var before := BranchGroups(b.front, k, id);
        body := GroupsJoin(BranchRegex(b.front, k), QuantityRegex(b.piece.quantity, r), BranchRegex(b, k), id,
                           k.captures, k'.captures, AfterBranch(b, k).captures, before, body);
      }
    }
  }

  /** Every capture number of a pattern belongs to one group, however often repetition has copied it. */
  lemma {:induction false} PatternGroups(x: Pattern, k: Numbering, id: nat) returns (body: Regex)
    requires Complete(x) && !Vanishes(x)
    ensures GroupsWithin(PatternRegex(x, k), id, k.captures, AfterPattern(x, k).captures, body)
    decreases x
  {
    match x
    case Only(b) => body := BranchGroups(b, k, id);
    case Or(front, last) =>
      var k' := AfterPattern(front, k);
      NumbersGrow(front, k);
      BranchNumbersGrow(last, k');
      var before := PatternGroups(front, k, id);
      body := BranchGroups(last, k', id);
      body := GroupsJoin(PatternRegex(front, k), BranchRegex(last, k'), PatternRegex(x, k), id,
                         k.captures, k'.captures, AfterPattern(x, k).captures, before, body);
  }

  // ---------------------------------------------------------------------
  // The scanner rejects inverted bounds
  // ---------------------------------------------------------------------

  lemma {:induction false} ItemEffectOrdered(i: Item, s: Scan)
    requires ItemEffect(i, s).Fine?
    ensures ItemOrdered(i)
    decreases i
  {
    if i.Grouped? {
      PatternEffectOrdered(i.body, s.Open(i.capturing).scan);
    }
  }

  lemma {:induction false} BranchEffectOrdered(b: Branch, s: Scan)
    requires BranchEffect(b, s).Fine?
    ensures BranchOrdered(b)
    decreases b
  {
    if b.Append? {
      BranchEffectOrdered(b.front, s);
      ItemEffectOrdered(b.piece.item, BranchEffect(b.front, s).scan);
    }
  }

  lemma {:induction false} PatternEffectOrdered(x: Pattern, s: Scan)
    requires PatternEffect(x, s).Fine?
    ensures PatternOrdered(x)
    decreases x
  {
    match x
    case Only(b) => BranchEffectOrdered(b, s);
    case Or(front, last) =>
      PatternEffectOrdered(front, s);
      BranchEffectOrdered(last, PatternEffect(front, s).scan.Bar());
  }

  // ---------------------------------------------------------------------
  // Compilation
  // ---------------------------------------------------------------------

  /** The engine was built for the pattern. */
  ghost predicate BuiltFor(e: RegexEngine, x: Pattern)
  {
    && e.errorCode == NoError && e.Ready() && PatternOrdered(x)
    && e.pattern == RegexOf(x)
    && AllFit(e.classes, AfterPattern(x, UNNUMBERED).classes)
    && e.numCaptures == AfterPattern(x, UNNUMBERED).captures
  }

  /** The scanner's verdict on a written pattern: its token stream, or a limit it exceeds. */
  lemma {:induction false} ScanVerdict(readers: Readers, x: Pattern)
    requires readers.Sound() && Readable(readers, x)
    ensures match Finish(Run(readers, PrintPattern(x), 0, START))
            case Rejected(error) => IsLimit(error) && !WithinLimits(x)
            case Scanned(p, s) =>
              WithinLimits(x) && p == TokenStreams.PatternTokens(x, UNNUMBERED) && NumberingOf(s) == AfterPattern(x, UNNUMBERED) && PatternOrdered(x)
  {
    ScanPrinted(readers, x);
    ScansIffWithin(readers, x);
    PatternScanned(x, START);
    if PatternEffect(x, START).Fine? {
      PatternEffectOrdered(x, START);
    }
  }

  /** The regex that a token stream of the pattern denotes, if it denotes one. */
  lemma StreamMeaning(x: Pattern, r: Option<Regex>)
    requires Denotes(TokenStreams.PatternTokens(x, UNNUMBERED), r)
    ensures r == RegexOf(x) && WellFormed(x)
  {
    StreamDenotes(x, UNNUMBERED);
    var p := TokenStreams.PatternTokens(x, UNNUMBERED);
    match r
    case None =>
    case Some(y) =>
      assert p == Postorder(y);
      PostorderUnique(p, PatternRegex(x, UNNUMBERED));
      PostorderUnique(p, y);
  }

  /** Every operator has its operands, or nothing of the pattern is left. */
  ghost predicate WellFormed(x: Pattern)
  {
    Complete(x) || TokenStreams.PatternTokens(x, UNNUMBERED) == []
  }

  /** The regex of a well-formed pattern; None is the empty pattern. */
  ghost function RegexOf(x: Pattern): Option<Regex>
  {
    if Complete(x) && !Vanishes(x) then Some(PatternRegex(x, UNNUMBERED)) else None
  }

  lemma WellFormedDenotes(x: Pattern)
    requires WellFormed(x)
    ensures Denotes(TokenStreams.PatternTokens(x, UNNUMBERED), RegexOf(x))
  {
    if Complete(x) {
      PatternPostorder(x, UNNUMBERED);
    }
  }

  lemma AllReady(cs: seq<RuneClass>, specs: seq<ClassSpec>)
    requires AllFit(cs, specs)
    ensures forall c :: c in cs ==> c.Ready()
  {
  }

  /**
   * Scans the written form of a pattern and builds its engine. That succeeds
   * exactly for the well-formed patterns within the limits whose automaton
   * fits the closure cache.
   */
  method CompilePattern(x: Pattern, readers: Readers) returns (e: RegexEngine)
    requires readers.Sound() && Readable(readers, x)
    ensures e.errorCode == NoError <==> WellFormed(x) && WithinLimits(x) && CacheFits(e.states, e.hasConditionals)
    ensures WellFormed(x) && WithinLimits(x) && SmallAutomaton(RegexOf(x)) ==> e.errorCode == NoError
    ensures e.errorCode == NoError ==> BuiltFor(e, x)
    ensures WellFormed(x) && e.errorCode != NoError ==> IsLimit(e.errorCode)
  {
    var builder := new PostfixBuilder(readers);
    var ok := builder.RegexpToPostfix(PrintPattern(x));
    ScanVerdict(readers, x);
    if !ok {
      e := new RegexEngine([], [], 0, builder.errorCode);
      return;
    }
    ghost var k := AfterPattern(x, UNNUMBERED);
    AllReady(builder.runeClasses, k.classes);
    e := new RegexEngine(builder.postfix, builder.runeClasses, builder.numCaptures, NoError);
    if e.errorCode == NoError {
      StreamMeaning(x, e.pattern);
    }
    if WellFormed(x) {
      WellFormedDenotes(x);
    }
  }

  /** What the engine's regex matches is what the pattern means. */
  lemma {:induction false} BuiltMeaning(e: RegexEngine, x: Pattern, t: Subject, a: nat, b: nat)
    requires BuiltFor(e, x) && Complete(x) && PatternLabelled(x, UNNUMBERED)
    requires t.classes == e.classes
    ensures PatternMatches(e.pattern, t, a, b) <==> PatternMeans(x, t, a, b)
  {
    if Vanishes(x) {
      VanishedMeaning(x, t, a, b);
    } else {
      PatternMeaning(x, UNNUMBERED, t, a, b);
    }
  }

  /** The boundary of the longest prefix the written pattern describes, if there is one. */
  ghost predicate LongestDescribed(x: Pattern, t: Subject, end: Option<nat>)
  {
    match end
    case None => forall j: nat :: j <= |t.runes| ==> !PatternMeans(x, t, 0, j)
    case Some(n) => n <= |t.runes| && PatternMeans(x, t, 0, n) && forall j: nat :: n < j <= |t.runes| ==> !PatternMeans(x, t, 0, j)
  }

  lemma {:induction false} LongestAgrees(e: RegexEngine, x: Pattern, t: Subject, end: Option<nat>)
    requires BuiltFor(e, x) && Complete(x) && PatternLabelled(x, UNNUMBERED)
    requires t.classes == e.classes
    ensures IsLongest(e.pattern, t, end) <==> LongestDescribed(x, t, end)
  {
    if end.Some? {
      BuiltMeaning(e, x, t, 0, end.value);
    }
    if IsLongest(e.pattern, t, end) {
      forall j: nat | j <= |t.runes| && (end.Some? ==> end.value < j)
        ensures !PatternMeans(x, t, 0, j)
      {
        BuiltMeaning(e, x, t, 0, j);
      }
    }
    if LongestDescribed(x, t, end) {
      forall j: nat | j <= |t.runes| && (end.Some? ==> end.value < j)
        ensures !PatternMatches(e.pattern, t, 0, j)
      {
        BuiltMeaning(e, x, t, 0, j);
      }
    }
  }

  /** The longest prefix the matchers report is the longest one the written pattern describes. */
  lemma {:induction false} LongestMeaning(e: RegexEngine, x: Pattern, t: Subject, len: Option<nat>)
    requires BuiltFor(e, x) && Complete(x) && PatternLabelled(x, UNNUMBERED)
    requires t.Valid() && t.classes == e.classes
    ensures IsLongestPrefix(e.pattern, t, len) <==>
            if len.None? then LongestDescribed(x, t, None)
            else exists j: nat :: j <= |t.runes| && len.value == t.offsets[j] && LongestDescribed(x, t, Some(j))
  {
    LongestAgrees(e, x, t, None);
    forall j: nat | j <= |t.runes|
      ensures IsLongest(e.pattern, t, Some(j)) <==> LongestDescribed(x, t, Some(j))
    {
      LongestAgrees(e, x, t, Some(j));
    }
  }

  /** Every reported capture is unset, or spans a match of its own group inside the reported match. */
  lemma {:induction false} CapturesAreSpans(e: RegexEngine, x: Pattern, t: Subject, len: nat, captures: seq<Capture>, id: nat)
    requires BuiltFor(e, x) && Complete(x) && !Vanishes(x)
    requires t.Valid() && Witnessed(e, t, len, captures) && id < e.numCaptures
    ensures |captures| == e.numCaptures
    ensures captures[id] == Capture(None, None) ||
            exists body, j: nat :: IsGroup(e.pattern.value, id, body) && j <= |t.runes| && t.offsets[j] == len &&
                              IsSpan(body, t, 0, j, captures[id].start, captures[id].end)
  {
    var r := e.pattern.value;
    var body := PatternGroups(x, UNNUMBERED, id);
    var j, d :| 0 <= j <= |t.runes| && len == t.offsets[j] && AcceptsWith(e.pattern, t, j, e.numCaptures, d) && captures == Spans(d);
    UnsetOrSpan(r, t, Unset(e.numCaptures), j, d, id, body);
  }
}
