// The meaning of regular expressions, independent of any automaton: which
// stretches of a subject string a regex matches, and with which captures.

module RegexSemantics {
  import opened Options
  import opened Utf8
  import opened RuneClasses

  /** Machine words count modulo this. */
  const SIZE_MODULUS: nat := 0x1_0000_0000_0000_0000

  /** A pattern has at most this many capturing groups. */
  const MAX_CAPTURES: nat := 64

  /**
   * Labels of automaton states. The engine encodes them as disjoint rune
   * ranges beyond every decodable rune; here they are constructors.
   */
  datatype Label =
    | Lit(rune: Rune)
    | Class(index: nat)
    | WordBoundary
    | StartAnchor
    | EndAnchor
    | Split
    | CaptureOpen(id: nat)
    | CaptureClose(id: nat)
    | Match
  {
    /** The labels that occur as operands in a postfix stream. */
    predicate IsOperand()
    {
      Lit? || Class? || WordBoundary? || StartAnchor? || EndAnchor?
    }

    /** States that stay in a state set: those that consume a rune, and the accept state. */
    predicate IsTerminal()
    {
      Lit? || Class? || Match?
    }
  }

  type Operand = l: Label | l.IsOperand() witness WordBoundary

  datatype RepeatKind = ZeroOrOne | ZeroOrMore | OneOrMore

  datatype Regex =
    | Leaf(tag: Operand)
    | Concat(left: Regex, right: Regex)
    | Either(left: Regex, right: Regex)
    | Repeat(kind: RepeatKind, lazy: bool, body: Regex)
    | Group(id: nat, body: Regex)

  /**
   * What a match attempt looks at: the class table, the runes with the byte
   * offset of every boundary, and what precedes the first rune.
   */
  datatype Subject = Subject(classes: seq<RuneClass>, runes: seq<Rune>, offsets: seq<nat>,
                             atStart: bool, prevWord: bool)
  {
    ghost predicate Valid() { |offsets| == |runes| + 1 }
  }

  predicate IsWordChar(r: Rune)
  {
    '0' as int <= r <= '9' as int || 'A' as int <= r <= 'Z' as int ||
    'a' as int <= r <= 'z' as int || r == '_' as int
  }

  /** The three conditions that zero-width assertions test at boundary `i`. */
  datatype Flags = Flags(boundary: bool, atStart: bool, atEnd: bool)

  ghost function FlagsAt(t: Subject, i: nat): Flags
    requires i <= |t.runes|
  {
    var before := if i == 0 then t.prevWord else IsWordChar(t.runes[i - 1]);
    var after := i < |t.runes| && IsWordChar(t.runes[i]);
    Flags(before != after, t.atStart && i == 0, i == |t.runes|)
  }

  /** Whether a zero-width label lets a match pass under the given conditions. */
  predicate Passes(tag: Label, f: Flags)
  {
    match tag
    case WordBoundary => f.boundary
    case StartAnchor => f.atStart
    case EndAnchor => f.atEnd
    case _ => false
  }

  /** Whether a label consumes the rune. */
  ghost predicate Accepts(classes: seq<RuneClass>, tag: Label, r: Rune)
  {
    match tag
    case Lit(l) => l == r
    case Class(k) => k < |classes| && InRanges(classes[k].ranges, r)
    case _ => false
  }

  ghost predicate LeafMatches(tag: Operand, t: Subject, i: nat, j: nat)
  {
    i <= |t.runes| &&
    if tag.IsTerminal() then
      i < |t.runes| && j == i + 1 && Accepts(t.classes, tag, t.runes[i])
    else
      j == i && Passes(tag, FlagsAt(t, i))
  }

  /** `r` matches the runes of `t` from boundary `i` to boundary `j`. */
  ghost predicate Matches(r: Regex, t: Subject, i: nat, j: nat)
    decreases r, 0, |t.runes|
  {
    match r
    case Leaf(tag) => LeafMatches(tag, t, i, j)
    case Concat(a, b) => exists k :: Matches(a, t, i, k) && Matches(b, t, k, j)
    case Either(a, b) => Matches(a, t, i, j) || Matches(b, t, i, j)
    case Repeat(ZeroOrOne, _, a) => (i == j <= |t.runes|) || Matches(a, t, i, j)
    case Repeat(ZeroOrMore, _, a) => exists n: nat :: Power(a, n, t, i, j)
    case Repeat(OneOrMore, _, a) => exists n: nat :: n >= 1 && Power(a, n, t, i, j)
    case Group(_, a) => Matches(a, t, i, j)
  }

  /** `n` consecutive matches of `r` lead from `i` to `j`. */
  ghost predicate Power(r: Regex, n: nat, t: Subject, i: nat, j: nat)
    decreases r, n + 1, |t.runes|
  {
    if n == 0 then i == j <= |t.runes|
    else exists k :: Matches(r, t, i, k) && Power(r, n - 1, t, k, j)
  }

  /** Captured byte offsets: slot 2*id holds the start of group id, slot 2*id+1 its end. */
  type Captures = seq<Option<nat>>

  function SetSlot(c: Captures, slot: nat, v: nat): (d: Captures)
    ensures |d| == |c|
  {
    if slot < |c| then c[slot := Some(v)] else c
  }

  /** A match of `r` from `i` to `j` that turns the captures `c` into `d`. */
  ghost predicate Captured(r: Regex, t: Subject, i: nat, c: Captures, j: nat, d: Captures)
    requires t.Valid()
    decreases r, 0, |t.runes|
  {
    match r
    case Leaf(tag) => LeafMatches(tag, t, i, j) && c == d
    case Concat(a, b) => exists k, m :: Captured(a, t, i, c, k, m) && Captured(b, t, k, m, j, d)
    case Either(a, b) => Captured(a, t, i, c, j, d) || Captured(b, t, i, c, j, d)
    case Repeat(ZeroOrOne, _, a) => (i == j <= |t.runes| && c == d) || Captured(a, t, i, c, j, d)
    case Repeat(ZeroOrMore, _, a) => exists n: nat :: CapturedPower(a, n, t, i, c, j, d)
    case Repeat(OneOrMore, _, a) => exists n: nat :: n >= 1 && CapturedPower(a, n, t, i, c, j, d)
    case Group(id, a) =>
      i <= |t.runes| && j <= |t.runes| &&
      exists m :: Captured(a, t, i, SetSlot(c, 2 * id, t.offsets[i]), j, m) &&
                  d == SetSlot(m, 2 * id + 1, t.offsets[j])
  }

  ghost predicate CapturedPower(r: Regex, n: nat, t: Subject, i: nat, c: Captures, j: nat, d: Captures)
    requires t.Valid()
    decreases r, n + 1, |t.runes|
  {
    if n == 0 then i == j <= |t.runes| && c == d
    else exists k, m :: Captured(r, t, i, c, k, m) && CapturedPower(r, n - 1, t, k, m, j, d)
  }

  // ---------------------------------------------------------------------
  // Captures do not influence which stretches match
  // ---------------------------------------------------------------------

  lemma {:induction false} MatchesInRange(r: Regex, t: Subject, i: nat, j: nat)
    requires Matches(r, t, i, j)
    ensures i <= j <= |t.runes|
    decreases r, 0
  {
    match r
    case Leaf(_) =>
    case Concat(a, b) =>
      var k :| Matches(a, t, i, k) && Matches(b, t, k, j);
      MatchesInRange(a, t, i, k);
      MatchesInRange(b, t, k, j);
    case Either(a, b) =>
      if Matches(a, t, i, j) { MatchesInRange(a, t, i, j); } else { MatchesInRange(b, t, i, j); }
    case Repeat(ZeroOrOne, _, a) =>
      if Matches(a, t, i, j) { MatchesInRange(a, t, i, j); }
    case Repeat(_, _, a) =>
      var n: nat :| Power(a, n, t, i, j);
      PowerInRange(a, n, t, i, j);
    case Group(_, a) => MatchesInRange(a, t, i, j);
  }

  lemma {:induction false} PowerInRange(r: Regex, n: nat, t: Subject, i: nat, j: nat)
    requires Power(r, n, t, i, j)
    ensures i <= j <= |t.runes|
    decreases r, n + 1
  {
    if n > 0 {
      var k :| Matches(r, t, i, k) && Power(r, n - 1, t, k, j);
      MatchesInRange(r, t, i, k);
      PowerInRange(r, n - 1, t, k, j);
    }
  }

  /** Forgetting the captures of a capturing match leaves a match. */
  lemma {:induction false} CapturedMatches(r: Regex, t: Subject, i: nat, c: Captures, j: nat, d: Captures)
    requires t.Valid() && Captured(r, t, i, c, j, d)
    ensures Matches(r, t, i, j)
    ensures |d| == |c|
    decreases r, 0
  {
    match r
    case Leaf(_) =>
    case Concat(a, b) =>
      var k, m :| Captured(a, t, i, c, k, m) && Captured(b, t, k, m, j, d);
      CapturedMatches(a, t, i, c, k, m);
      CapturedMatches(b, t, k, m, j, d);
    case Either(a, b) =>
      if Captured(a, t, i, c, j, d) { CapturedMatches(a, t, i, c, j, d); } else { CapturedMatches(b, t, i, c, j, d); }
    case Repeat(ZeroOrOne, _, a) =>
      if Captured(a, t, i, c, j, d) { CapturedMatches(a, t, i, c, j, d); }
    case Repeat(ZeroOrMore, _, a) =>
      var n: nat :| CapturedPower(a, n, t, i, c, j, d);
      CapturedPowerPower(a, n, t, i, c, j, d);
    case Repeat(OneOrMore, _, a) =>
      var n: nat :| n >= 1 && CapturedPower(a, n, t, i, c, j, d);
      CapturedPowerPower(a, n, t, i, c, j, d);
    case Group(id, a) =>
      var m :| Captured(a, t, i, SetSlot(c, 2 * id, t.offsets[i]), j, m) && d == SetSlot(m, 2 * id + 1, t.offsets[j]);
      CapturedMatches(a, t, i, SetSlot(c, 2 * id, t.offsets[i]), j, m);
  }

  lemma {:induction false} CapturedPowerPower(r: Regex, n: nat, t: Subject, i: nat, c: Captures, j: nat, d: Captures)
    requires t.Valid() && CapturedPower(r, n, t, i, c, j, d)
    ensures Power(r, n, t, i, j)
    ensures |d| == |c|
    decreases r, n + 1
  {
    if n > 0 {
      var k, m :| Captured(r, t, i, c, k, m) && CapturedPower(r, n - 1, t, k, m, j, d);
      CapturedMatches(r, t, i, c, k, m);
      CapturedPowerPower(r, n - 1, t, k, m, j, d);
    }
  }

  /** Every match can be replayed with captures, from any captures. */
  lemma {:induction false} MatchesCaptured(r: Regex, t: Subject, i: nat, c: Captures, j: nat) returns (d: Captures)
    requires t.Valid() && Matches(r, t, i, j)
    ensures Captured(r, t, i, c, j, d)
    decreases r, 0
  {
    MatchesInRange(r, t, i, j);
    match r
    case Leaf(_) => d := c;
    case Concat(a, b) =>
      var k :| Matches(a, t, i, k) && Matches(b, t, k, j);
      var m := MatchesCaptured(a, t, i, c, k);
      d := MatchesCaptured(b, t, k, m, j);
    case Either(a, b) =>
      if Matches(a, t, i, j) { d := MatchesCaptured(a, t, i, c, j); } else { d := MatchesCaptured(b, t, i, c, j); }
    case Repeat(ZeroOrOne, _, a) =>
      if i == j { d := c; } else { d := MatchesCaptured(a, t, i, c, j); }
    case Repeat(ZeroOrMore, _, a) =>
      var n: nat :| Power(a, n, t, i, j);
      d := PowerCaptured(a, n, t, i, c, j);
    case Repeat(OneOrMore, _, a) =>
      var n: nat :| n >= 1 && Power(a, n, t, i, j);
      d := PowerCaptured(a, n, t, i, c, j);
    case Group(id, a) =>
      var m := MatchesCaptured(a, t, i, SetSlot(c, 2 * id, t.offsets[i]), j);
      d := SetSlot(m, 2 * id + 1, t.offsets[j]);
  }

  lemma {:induction false} PowerCaptured(r: Regex, n: nat, t: Subject, i: nat, c: Captures, j: nat) returns (d: Captures)
    requires t.Valid() && Power(r, n, t, i, j)
    ensures CapturedPower(r, n, t, i, c, j, d)
    decreases r, n + 1
  {
    if n == 0 {
      d := c;
    } else {
      var k :| Matches(r, t, i, k) && Power(r, n - 1, t, k, j);
      var m := MatchesCaptured(r, t, i, c, k);
      d := PowerCaptured(r, n - 1, t, k, m, j);
    }
  }
}
