// The written form of patterns, and what scanning it does to the scanner
// machine, piece by piece.

module PatternSyntax {
  import opened Options
  import opened Utf8
  import opened Encoding
  import opened RuneClasses
  import opened RegexSemantics
  import opened Postfix
  import opened Repetition
  import opened ScanMachine

  // ---------------------------------------------------------------------
  // Syntax trees
  // ---------------------------------------------------------------------

  const SPECIALS: string := "\\.[^$]{}()|*+?"

  predicate IsSpecial(r: Rune)
  {
    exists k :: 0 <= k < |SPECIALS| && SPECIALS[k] as int == r
  }

  /** A rune that stands for itself. */
  type Plain = r: Rune | r <= MAX_ENCODABLE && !IsSpecial(r) witness 'a' as int

  /** A rune that stands for a literal after a backslash. */
  type Escapable = r: Rune | EscapeValue(r).Some? witness '.' as int

  type Letter = r: Rune | IsShorthand(r) witness 'd' as int
  type Hex = b: Byte | HexDigit(b).Some? witness '0' as int
  type Digits = s: seq<Byte> | s != [] && forall k :: 0 <= k < |s| ==> '0' as int <= s[k] <= '9' as int witness ['0' as int]

  datatype Quantity = Once | Sign(kind: RepeatKind, lazy: bool) | Exactly(n: Digits) | AtLeast(n: Digits) | FromTo(n: Digits, m: Digits)

  datatype Item =
    | Char(rune: Plain)
    | Escaped(code: Escapable)
    | HexChar(high: Hex, low: Hex)
    | Dot
    | Short(letter: Letter, negated: bool)
    | Boundary
    | LineStart
    | LineEnd
    | Bracket(text: seq<Byte>, class_: RuneClass, inner: seq<RuneClass>)
    | Category(name: seq<Byte>, negated: bool, class_: RuneClass)
    | Grouped(capturing: bool, body: Pattern)

  datatype Piece = Piece(item: Item, quantity: Quantity)

  /** Pieces in a row, the last one outermost. */
  datatype Branch = Empty | Append(front: Branch, piece: Piece)

  /** Alternatives, the last one outermost. */
  datatype Pattern = Only(branch: Branch) | Or(front: Pattern, last: Branch)

  // ---------------------------------------------------------------------
  // Written form
  // ---------------------------------------------------------------------

  function Ascii(c: char): seq<Byte>
    requires c < 128 as char
  {
    [c as int]
  }

  function SignChar(kind: RepeatKind): Byte
  {
    match kind
    case ZeroOrOne => '?' as int
    case ZeroOrMore => '*' as int
    case OneOrMore => '+' as int
  }

  function PrintQuantity(q: Quantity): seq<Byte>
  {
    match q
    case Once => []
    case Sign(kind, lazy) => [SignChar(kind)] + if lazy then Ascii('?') else []
    case Exactly(n) => Ascii('{') + (n + Ascii('}'))
    case AtLeast(n) => Ascii('{') + (n + (Ascii(',') + Ascii('}')))
    case FromTo(n, m) => Ascii('{') + (n + (Ascii(',') + (m + Ascii('}'))))
  }

  function PrintItem(i: Item): seq<Byte>
  {
    match i
    case Char(r) => Encode(r)
    case Escaped(r) => Ascii('\\') + [r]
    case HexChar(h, l) => Ascii('\\') + ([('x' as int) as Byte] + [h, l])
    case Dot => Ascii('.')
    case Short(letter, negated) => Ascii('\\') + [if negated then letter - 32 else letter]
    case Boundary => Ascii('\\') + Ascii('b')
    case LineStart => Ascii('^')
    case LineEnd => Ascii('$')
    case Bracket(text, _, _) => Ascii('[') + text
    case Category(name, negated, _) => Ascii('\\') + ([(if negated then 'P' else 'p') as int as Byte] + name)
    case Grouped(capturing, body) =>
      (Ascii('(') + if capturing then [] else Ascii('?') + Ascii(':')) + (PrintPattern(body) + Ascii(')'))
  }

  function PrintPiece(p: Piece): seq<Byte>
  {
    PrintItem(p.item) + PrintQuantity(p.quantity)
  }

  function PrintBranch(b: Branch): seq<Byte>
  {
    match b
    case Empty => []
    case Append(front, piece) => PrintBranch(front) + PrintPiece(piece)
  }

  function PrintPattern(x: Pattern): seq<Byte>
  {
    match x
    case Only(b) => PrintBranch(b)
    case Or(front, last) => PrintPattern(front) + (Ascii('|') + PrintBranch(last))
  }

  // ---------------------------------------------------------------------
  // What scanning a written form does
  // ---------------------------------------------------------------------

  /** The value of a digit string in machine arithmetic. */
  function Value(d: Digits): nat
  {
    Number(d, 0, 0).0
  }

  function BoundsOf(q: Quantity): Bounds
    requires q.Exactly? || q.AtLeast? || q.FromTo?
  {
    match q
    case Exactly(n) => Bounds(Value(n), Some(Value(n)))
    case AtLeast(n) => Bounds(Value(n), None)
    case FromTo(n, m) => Bounds(Value(n), Some(Value(m)))
  }

  function QuantityEffect(q: Quantity, s: Scan): Outcome
  {
    match q
    case Once => Fine(s)
    case Sign(kind, lazy) => s.Quantify(kind, lazy)
    case _ => s.Repeat(BoundsOf(q))
  }

  function ItemEffect(i: Item, s: Scan): Outcome
  {
    match i
    case Char(r) => Fine(s.Leaf(Lit(r)))
    case Escaped(r) => Fine(s.Leaf(Lit(EscapeValue(r).value)))
    case HexChar(h, l) => Fine(s.Leaf(Lit(HexDigit(h).value * 16 + HexDigit(l).value)))
    case Dot => Fine(s.ClassAtom(AnyRune))
    case Short(letter, negated) => Fine(s.ClassAtom(Shorthand(letter, negated)))
    case Boundary => Fine(s.Leaf(WordBoundary))
    case LineStart => Fine(s.Leaf(StartAnchor))
    case LineEnd => Fine(s.Leaf(EndAnchor))
    case Bracket(_, c, inner) => s.ReadAtom(inner, c)
    case Category(_, _, c) => s.ReadAtom([], c)
    case Grouped(capturing, body) =>
      match s.Open(capturing) {
        case Fails(e) => Fails(e)
        case Fine(s1) =>
          match PatternEffect(body, s1)
          case Fails(e) => Fails(e)
          case Fine(s2) => s2.Close()
      }
  }

  function PieceEffect(p: Piece, s: Scan): Outcome
  {
    match ItemEffect(p.item, s)
    case Fails(e) => Fails(e)
    case Fine(s1) => QuantityEffect(p.quantity, s1)
  }

  function BranchEffect(b: Branch, s: Scan): Outcome
  {
    match b
    case Empty => Fine(s)
    case Append(front, piece) =>
      match BranchEffect(front, s)
      case Fails(e) => Fails(e)
      case Fine(s1) => PieceEffect(piece, s1)
  }

  function PatternEffect(x: Pattern, s: Scan): Outcome
  {
    match x
    case Only(b) => BranchEffect(b, s)
    case Or(front, last) =>
      match PatternEffect(front, s)
      case Fails(e) => Fails(e)
      case Fine(s1) => BranchEffect(last, s1.Bar())
  }

  // ---------------------------------------------------------------------
  // The scanner on a written form
  // ---------------------------------------------------------------------

  /** The outcome of scanning a pattern from a position and a state on. */
  type Runner = (nat, Scan) -> Outcome

  ghost predicate Runs(run: Runner, readers: Readers, p: seq<Byte>)
  {
    readers.Sound() &&
    forall pos: nat, s: Scan {:trigger Run(readers, p, pos, s)} :: pos <= |p| ==> run(pos, s) == Run(readers, p, pos, s)
  }

  /** Scanning from `pos` in state `s` comes to `pos'` with the given outcome. */
  ghost predicate Leads(run: Runner, p: seq<Byte>, pos: nat, s: Scan, o: Outcome, pos': nat)
  {
    && pos <= pos' <= |p|
    && match o
       case Fails(e) => run(pos, s) == Fails(e)
       case Fine(s') => run(pos, s) == run(pos', s') && !s'.escaped
  }

  lemma LeadsStep(run: Runner, readers: Readers, p: seq<Byte>, pos: nat, s: Scan)
    requires Runs(run, readers, p) && pos < |p|
    ensures match StepAt(readers, p, pos, s)
            case Stop(e) => run(pos, s) == Fails(e)
            case To(next, s') => pos < next <= |p| && run(pos, s) == run(next, s')
  {
    StepMoves(readers, p, pos, s);
    assert run(pos, s) == Run(readers, p, pos, s);
    match StepAt(readers, p, pos, s)
    case Stop(_) =>
    case To(next, s') => assert run(next, s') == Run(readers, p, next, s');
  }

  lemma LeadsOn(run: Runner, p: seq<Byte>, pos: nat, s: Scan, s1: Scan, pos1: nat, o: Outcome, pos2: nat)
    requires Leads(run, p, pos, s, Fine(s1), pos1) && Leads(run, p, pos1, s1, o, pos2)
    ensures Leads(run, p, pos, s, o, pos2)
  {
  }

  lemma AsciiAt(p: seq<Byte>, pos: nat, b: Byte, rest: seq<Byte>)
    requires Holds(p, pos, [b] + rest) && b < 128
    ensures p[pos] == b && DecodeRune(p, pos) == Decoded(b, 1) && Holds(p, pos + 1, rest)
  {
    HoldsParts(p, pos, [b], rest);
    HoldsByte(p, pos, [b], 0);
  }

  ghost predicate AlwaysReads(read: ClassReader, text: seq<Byte>, r: ClassRead)
  {
    forall p: seq<Byte>, pos: nat :: pos <= |p| && Holds(p, pos, text) ==> read(p, pos) == r
  }

  /** The brackets and categories in a pattern are read as the classes they stand for. */
  ghost predicate ItemReadable(readers: Readers, i: Item)
  {
    match i
    case Bracket(text, c, inner) => AlwaysReads(readers.bracket, text, Read(c, |text|, inner))
    case Category(name, negated, c) => AlwaysReads(if negated then readers.complement else readers.category, name, Read(c, |name|, []))
    case Grouped(_, body) => Readable(readers, body)
    case _ => true
  }

  ghost predicate BranchReadable(readers: Readers, b: Branch)
  {
    b.Append? ==> BranchReadable(readers, b.front) && ItemReadable(readers, b.piece.item)
  }

  ghost predicate Readable(readers: Readers, x: Pattern)
  {
    match x
    case Only(b) => BranchReadable(readers, b)
    case Or(front, last) => Readable(readers, front) && BranchReadable(readers, last)
  }

  /** No written form starts with a question mark, so none turns a quantifier lazy or a group non-capturing. */
  predicate Clean(text: seq<Byte>)
  {
    text == [] || text[0] != '?' as int
  }

  lemma SpecialsAreSpecial()
    ensures forall k :: 0 <= k < |SPECIALS| ==> IsSpecial(SPECIALS[k] as int)
  {
  }

  lemma PlainChar(r: Plain)
    ensures r != BACKSLASH && r != '.' as int && r != '[' as int && r != '^' as int && r != '$' as int && r != ']' as int
    ensures r != '{' as int && r != '}' as int && r != '(' as int && r != ')' as int && r != '|' as int
    ensures r != '*' as int && r != '+' as int && r != '?' as int
  {
    assert SPECIALS[0] == '\\' && SPECIALS[1] == '.' && SPECIALS[2] == '[' && SPECIALS[3] == '^' && SPECIALS[4] == '$';
    assert SPECIALS[5] == ']' && SPECIALS[6] == '{' && SPECIALS[7] == '}' && SPECIALS[8] == '(' && SPECIALS[9] == ')';
    assert SPECIALS[10] == '|' && SPECIALS[11] == '*' && SPECIALS[12] == '+' && SPECIALS[13] == '?';
    SpecialsAreSpecial();
  }

  lemma ItemClean(i: Item)
    ensures PrintItem(i) != [] && Clean(PrintItem(i))
  {
    if i.Char? {
      PlainChar(i.rune);
    }
  }

  lemma {:induction false} BranchClean(b: Branch)
    ensures Clean(PrintBranch(b))
  {
    if b.Append? {
      BranchClean(b.front);
      ItemClean(b.piece.item);
    }
  }

  lemma {:induction false} PatternClean(x: Pattern)
    ensures Clean(PrintPattern(x))
  {
    match x
    case Only(b) => BranchClean(b);
    case Or(front, _) => PatternClean(front);
  }

  lemma NoQuestion(p: seq<Byte>, pos: nat, text: seq<Byte>)
    requires Holds(p, pos, text) && Clean(text) && text != []
    ensures !At(p, pos, '?')
  {
    HoldsByte(p, pos, text, 0);
  }

  // ---------------------------------------------------------------------
  // Single characters
  // ---------------------------------------------------------------------

  /** A backslash and the ASCII character after it. */
  lemma EscapeRuns(run: Runner, readers: Readers, p: seq<Byte>, pos: nat, b: Byte, rest: seq<Byte>, s: Scan)
    requires Runs(run, readers, p) && !s.escaped && b < 128 && Holds(p, pos, Ascii('\\') + ([b] + rest))
    ensures Holds(p, pos + 2, rest)
    ensures match Escape(readers, p, pos + 2, b, s)
            case Stop(e) => run(pos, s) == Fails(e)
            case To(next, s') => pos < next <= |p| && run(pos, s) == run(next, s')
  {
    AsciiAt(p, pos, '\\' as int, [b] + rest);
    LeadsStep(run, readers, p, pos, s);
    AsciiAt(p, pos + 1, b, rest);
    LeadsStep(run, readers, p, pos + 1, s.(escaped := true));
    assert s.(escaped := true).(escaped := false) == s;
  }

  /** An escape of two bytes that takes the scanner to `s'`. */
  lemma TwoByteEscapeRuns(run: Runner, readers: Readers, p: seq<Byte>, pos: nat, b: Byte, s: Scan, s': Scan)
    requires Runs(run, readers, p) && !s.escaped && b < 128 && Holds(p, pos, Ascii('\\') + [b])
    requires Escape(readers, p, pos + 2, b, s) == To(pos + 2, s') && !s'.escaped
    ensures Leads(run, p, pos, s, Fine(s'), pos + 2)
  {
    assert [b] == [b] + [];
    EscapeRuns(run, readers, p, pos, b, [], s);
  }

  lemma HexRead(p: seq<Byte>, pos: nat, h: Hex, l: Hex)
    requires Holds(p, pos, [h, l])
    ensures ReadHex(p, pos) == Some(HexDigit(h).value * 16 + HexDigit(l).value)
  {
    HoldsByte(p, pos, [h, l], 0);
    HoldsByte(p, pos, [h, l], 1);
  }

  lemma HexEscape(readers: Readers, p: seq<Byte>, pos: nat, h: Hex, l: Hex, v: nat, s: Scan)
    requires Holds(p, pos, [h, l]) && v == HexDigit(h).value * 16 + HexDigit(l).value
    ensures Escape(readers, p, pos, 'x' as int, s) == To(pos + 2, s.Leaf(Lit(v)))
  {
    HexRead(p, pos, h, l);
  }

  lemma HexRuns(run: Runner, readers: Readers, p: seq<Byte>, pos: nat, h: Hex, l: Hex, s: Scan)
    requires Runs(run, readers, p) && !s.escaped && Holds(p, pos, Ascii('\\') + (['x' as int] + [h, l]))
    ensures Leads(run, p, pos, s, Fine(s.Leaf(Lit(HexDigit(h).value * 16 + HexDigit(l).value))), pos + 4)
  {
    var v := HexDigit(h).value * 16 + HexDigit(l).value;
    EscapeRuns(run, readers, p, pos, 'x' as int, [h, l], s);
    HexEscape(readers, p, pos + 2, h, l, v, s);
  }

  lemma {:induction false} EscapeItemRuns(run: Runner, readers: Readers, p: seq<Byte>, pos: nat, i: Item, s: Scan)
    requires Runs(run, readers, p) && !s.escaped && Holds(p, pos, PrintItem(i))
    requires i.Escaped? || i.Short? || i.Boundary? || i.HexChar?
    ensures Leads(run, p, pos, s, ItemEffect(i, s), pos + |PrintItem(i)|)
  {
    match i
    case Escaped(r) => TwoByteEscapeRuns(run, readers, p, pos, r, s, s.Leaf(Lit(EscapeValue(r).value)));
    case Short(letter, negated) =>
      TwoByteEscapeRuns(run, readers, p, pos, if negated then letter - 32 else letter, s, s.ClassAtom(Shorthand(letter, negated)));
    case Boundary => TwoByteEscapeRuns(run, readers, p, pos, 'b' as int, s, s.Leaf(WordBoundary));
    case HexChar(h, l) => HexRuns(run, readers, p, pos, h, l, s);
  }

  lemma CharRuns(run: Runner, readers: Readers, p: seq<Byte>, pos: nat, r: Plain, s: Scan)
    requires Runs(run, readers, p) && !s.escaped && Holds(p, pos, Encode(r))
    ensures Leads(run, p, pos, s, Fine(s.Leaf(Lit(r))), pos + |Encode(r)|)
  {
    PlainChar(r);
    DecodeEncoded(p, pos, r);
    LeadsStep(run, readers, p, pos, s);
  }

  /** An ASCII character that takes the scanner to `s'`. */
  lemma OneByteRuns(run: Runner, readers: Readers, p: seq<Byte>, pos: nat, b: Byte, s: Scan, s': Scan)
    requires Runs(run, readers, p) && !s.escaped && b < 128 && b != BACKSLASH && Holds(p, pos, [b])
    requires PlainStep(readers, p, pos + 1, b, s) == To(pos + 1, s') && !s'.escaped
    ensures Leads(run, p, pos, s, Fine(s'), pos + 1)
  {
    assert [b] == [b] + [];
    AsciiAt(p, pos, b, []);
    LeadsStep(run, readers, p, pos, s);
  }

  lemma {:induction false} PlainItemRuns(run: Runner, readers: Readers, p: seq<Byte>, pos: nat, i: Item, s: Scan)
    requires Runs(run, readers, p) && !s.escaped && Holds(p, pos, PrintItem(i))
    requires i.Char? || i.Dot? || i.LineStart? || i.LineEnd?
    ensures Leads(run, p, pos, s, ItemEffect(i, s), pos + |PrintItem(i)|)
  {
    match i
    case Char(r) => CharRuns(run, readers, p, pos, r, s);
    case Dot => OneByteRuns(run, readers, p, pos, '.' as int, s, s.ClassAtom(AnyRune));
    case LineStart => OneByteRuns(run, readers, p, pos, '^' as int, s, s.Leaf(StartAnchor));
    case LineEnd => OneByteRuns(run, readers, p, pos, '$' as int, s, s.Leaf(EndAnchor));
  }

  lemma {:induction false} BracketRuns(run: Runner, readers: Readers, p: seq<Byte>, pos: nat, i: Item, s: Scan)
    requires Runs(run, readers, p) && !s.escaped && Holds(p, pos, PrintItem(i))
    requires i.Bracket? && ItemReadable(readers, i)
    ensures Leads(run, p, pos, s, ItemEffect(i, s), pos + |PrintItem(i)|)
  {
    AsciiAt(p, pos, '[' as int, i.text);
    LeadsStep(run, readers, p, pos, s);
  }

  lemma {:induction false} CategoryRuns(run: Runner, readers: Readers, p: seq<Byte>, pos: nat, i: Item, s: Scan)
    requires Runs(run, readers, p) && !s.escaped && Holds(p, pos, PrintItem(i))
    requires i.Category? && ItemReadable(readers, i)
    ensures Leads(run, p, pos, s, ItemEffect(i, s), pos + |PrintItem(i)|)
  {
    EscapeRuns(run, readers, p, pos, (if i.negated then 'P' else 'p') as int, i.name, s);
  }

  // ---------------------------------------------------------------------
  // Quantities
  // ---------------------------------------------------------------------

  lemma {:induction false} NumberRuns(p: seq<Byte>, pos: nat, d: seq<Byte>, k: nat, acc: nat)
    requires Holds(p, pos, d) && k <= |d| && !DigitAt(p, pos + |d|)
    requires forall j :: 0 <= j < |d| ==> '0' as int <= d[j] <= '9' as int
    ensures Number(p, pos + k, acc) == (Number(d, k, acc).0, pos + |d|)
    decreases |d| - k
  {
    if k < |d| {
      HoldsByte(p, pos, d, k);
      NumberRuns(p, pos, d, k + 1, (acc * 10 + (d[k] - '0' as int)) % SIZE_MODULUS);
    }
  }

  lemma ByteAt(p: seq<Byte>, pos: nat, b: Byte, rest: seq<Byte>)
    requires Holds(p, pos, [b] + rest)
    ensures pos < |p| && p[pos] == b && Holds(p, pos + 1, rest)
  {
    HoldsParts(p, pos, [b], rest);
    HoldsByte(p, pos, [b], 0);
  }

  lemma DigitsAt(p: seq<Byte>, pos: nat, d: Digits, b: Byte, rest: seq<Byte>)
    requires Holds(p, pos, d + ([b] + rest)) && !('0' as int <= b <= '9' as int)
    ensures DigitAt(p, pos) && Number(p, pos, 0) == (Value(d), pos + |d|)
    ensures pos + |d| < |p| && p[pos + |d|] == b && Holds(p, pos + |d| + 1, rest)
  {
    HoldsParts(p, pos, d, [b] + rest);
    ByteAt(p, pos + |d|, b, rest);
    HoldsByte(p, pos, d, 0);
    NumberRuns(p, pos, d, 0, 0);
  }

  lemma ExactlyRead(p: seq<Byte>, pos: nat, n: Digits)
    requires Holds(p, pos, n + Ascii('}'))
    ensures DigitAt(p, pos) && ReadBounds(p, pos) == Some((Bounds(Value(n), Some(Value(n))), pos + |n| + 1))
  {
    assert Ascii('}') == ['}' as int] + [];
    DigitsAt(p, pos, n, '}' as int, []);
  }

  lemma AtLeastRead(p: seq<Byte>, pos: nat, n: Digits)
    requires Holds(p, pos, n + (Ascii(',') + Ascii('}')))
    ensures DigitAt(p, pos) && ReadBounds(p, pos) == Some((Bounds(Value(n), None), pos + |n| + 2))
  {
    DigitsAt(p, pos, n, ',' as int, Ascii('}'));
    HoldsByte(p, pos + |n| + 1, Ascii('}'), 0);
  }

  lemma {:induction false} FromToRead(p: seq<Byte>, pos: nat, n: Digits, m: Digits)
    requires Holds(p, pos, n + (Ascii(',') + (m + Ascii('}'))))
    ensures DigitAt(p, pos) && ReadBounds(p, pos) == Some((Bounds(Value(n), Some(Value(m))), pos + |n| + |m| + 2))
  {
    DigitsAt(p, pos, n, ',' as int, m + Ascii('}'));
    assert Ascii('}') == ['}' as int] + [];
    DigitsAt(p, pos + |n| + 1, m, '}' as int, []);
  }

  lemma ExactlyBounds(p: seq<Byte>, pos: nat, n: Digits)
    requires Holds(p, pos, Ascii('{') + (n + Ascii('}')))
    ensures p[pos] == '{' as int && DigitAt(p, pos + 1)
    ensures ReadBounds(p, pos + 1) == Some((Bounds(Value(n), Some(Value(n))), pos + |n| + 2))
  {
    HoldsParts(p, pos, Ascii('{'), n + Ascii('}'));
    HoldsByte(p, pos, Ascii('{'), 0);
    ExactlyRead(p, pos + 1, n);
  }

  lemma AtLeastBounds(p: seq<Byte>, pos: nat, n: Digits)
    requires Holds(p, pos, Ascii('{') + (n + (Ascii(',') + Ascii('}'))))
    ensures p[pos] == '{' as int && DigitAt(p, pos + 1)
    ensures ReadBounds(p, pos + 1) == Some((Bounds(Value(n), None), pos + |n| + 3))
  {
    HoldsParts(p, pos, Ascii('{'), n + (Ascii(',') + Ascii('}')));
    HoldsByte(p, pos, Ascii('{'), 0);
    AtLeastRead(p, pos + 1, n);
  }

  lemma FromToBounds(p: seq<Byte>, pos: nat, n: Digits, m: Digits)
    requires Holds(p, pos, Ascii('{') + (n + (Ascii(',') + (m + Ascii('}')))))
    ensures p[pos] == '{' as int && DigitAt(p, pos + 1)
    ensures ReadBounds(p, pos + 1) == Some((Bounds(Value(n), Some(Value(m))), pos + |n| + |m| + 3))
  {
    HoldsParts(p, pos, Ascii('{'), n + (Ascii(',') + (m + Ascii('}'))));
    HoldsByte(p, pos, Ascii('{'), 0);
    FromToRead(p, pos + 1, n, m);
  }

  lemma {:induction false} BoundsRead(p: seq<Byte>, pos: nat, q: Quantity)
    requires q.Exactly? || q.AtLeast? || q.FromTo?
    requires Holds(p, pos, PrintQuantity(q))
    ensures p[pos] == '{' as int && DigitAt(p, pos + 1)
    ensures ReadBounds(p, pos + 1) == Some((BoundsOf(q), pos + |PrintQuantity(q)|))
  {
    match q
    case Exactly(n) => ExactlyQuantity(p, pos, n, q);
    case AtLeast(n) => AtLeastQuantity(p, pos, n, q);
    case FromTo(n, m) => FromToQuantity(p, pos, n, m, q);
  }

  lemma {:induction false} ExactlyQuantity(p: seq<Byte>, pos: nat, n: Digits, q: Quantity)
    requires q == Exactly(n) && Holds(p, pos, PrintQuantity(q))
    ensures p[pos] == '{' as int && DigitAt(p, pos + 1)
    ensures ReadBounds(p, pos + 1) == Some((BoundsOf(q), pos + |PrintQuantity(q)|))
  {
    ExactlyBounds(p, pos, n);
  }

  lemma {:induction false} AtLeastQuantity(p: seq<Byte>, pos: nat, n: Digits, q: Quantity)
    requires q == AtLeast(n) && Holds(p, pos, PrintQuantity(q))
    ensures p[pos] == '{' as int && DigitAt(p, pos + 1)
    ensures ReadBounds(p, pos + 1) == Some((BoundsOf(q), pos + |PrintQuantity(q)|))
  {
    AtLeastBounds(p, pos, n);
  }

  lemma {:induction false} FromToQuantity(p: seq<Byte>, pos: nat, n: Digits, m: Digits, q: Quantity)
    requires q == FromTo(n, m) && Holds(p, pos, PrintQuantity(q))
    ensures p[pos] == '{' as int && DigitAt(p, pos + 1)
    ensures ReadBounds(p, pos + 1) == Some((BoundsOf(q), pos + |PrintQuantity(q)|))
  {
    FromToBounds(p, pos, n, m);
  }

  lemma {:induction false} SignRuns(run: Runner, readers: Readers, p: seq<Byte>, pos: nat, kind: RepeatKind, lazy: bool, s: Scan)
    requires Runs(run, readers, p) && !s.escaped && Holds(p, pos, PrintQuantity(Sign(kind, lazy)))
    requires lazy || !At(p, pos + 1, '?')
    ensures Leads(run, p, pos, s, s.Quantify(kind, lazy), pos + |PrintQuantity(Sign(kind, lazy))|)
  {
    AsciiAt(p, pos, SignChar(kind), if lazy then Ascii('?') else []);
    if lazy {
      HoldsByte(p, pos + 1, Ascii('?'), 0);
    }
    LeadsStep(run, readers, p, pos, s);
    assert StepAt(readers, p, pos, s) == QuantifierSign(kind, p, pos + 1, s);
  }

  lemma {:induction false} CountedRuns(run: Runner, readers: Readers, p: seq<Byte>, pos: nat, q: Quantity, s: Scan)
    requires Runs(run, readers, p) && !s.escaped && Holds(p, pos, PrintQuantity(q))
    requires q.Exactly? || q.AtLeast? || q.FromTo?
    requires s.frame.atom.Some? && !s.frame.quantified
    ensures Leads(run, p, pos, s, s.Repeat(BoundsOf(q)), pos + |PrintQuantity(q)|)
  {
    BoundsRead(p, pos, q);
    assert DecodeRune(p, pos) == Decoded('{' as int, 1);
    assert StepAt(readers, p, pos, s) == Go(s.Repeat(BoundsOf(q)), pos + |PrintQuantity(q)|);
    LeadsStep(run, readers, p, pos, s);
  }

  /** A quantity after an atom: the next character must not turn it into a lazy one. */
  lemma {:induction false} QuantityRuns(run: Runner, readers: Readers, p: seq<Byte>, pos: nat, q: Quantity, s: Scan)
    requires Runs(run, readers, p) && !s.escaped && Holds(p, pos, PrintQuantity(q))
    requires s.frame.atom.Some? && !s.frame.quantified
    requires !At(p, pos + |PrintQuantity(q)|, '?')
    ensures Leads(run, p, pos, s, QuantityEffect(q, s), pos + |PrintQuantity(q)|)
  {
    match q
    case Once =>
    case Sign(kind, lazy) => SignRuns(run, readers, p, pos, kind, lazy, s);
    case _ => CountedRuns(run, readers, p, pos, q, s);
  }

  // ---------------------------------------------------------------------
  // Whole patterns
  // ---------------------------------------------------------------------

  lemma ItemLeavesAtom(i: Item, s: Scan)
    requires ItemEffect(i, s).Fine?
    ensures ItemEffect(i, s).scan.frame.atom.Some? && !ItemEffect(i, s).scan.frame.quantified
  {
  }

  /** One outcome after another; a failure is final. */
  lemma LeadsThen(run: Runner, p: seq<Byte>, pos: nat, s: Scan, o: Outcome, pos1: nat, o': Outcome, pos2: nat)
    requires Leads(run, p, pos, s, o, pos1) && pos1 <= pos2 <= |p|
    requires if o.Fails? then o' == o else Leads(run, p, pos1, o.scan, o', pos2)
    ensures Leads(run, p, pos, s, o', pos2)
  {
  }

  lemma {:induction false} OpenRuns(run: Runner, readers: Readers, p: seq<Byte>, pos: nat, capturing: bool, s: Scan, rest: seq<Byte>)
    requires Runs(run, readers, p) && !s.escaped && Clean(rest) && rest != []
    requires Holds(p, pos, (Ascii('(') + if capturing then [] else Ascii('?') + Ascii(':')) + rest)
    ensures var next := pos + if capturing then 1 else 3;
            Leads(run, p, pos, s, s.Open(capturing), next) && Holds(p, next, rest)
  {
    var head := Ascii('(') + if capturing then [] else Ascii('?') + Ascii(':');
    HoldsParts(p, pos, head, rest);
    HoldsByte(p, pos, head, 0);
    assert p[pos] == '(' as int && DecodeRune(p, pos) == Decoded('(' as int, 1);
    if capturing {
      NoQuestion(p, pos + 1, rest);
    } else {
      HoldsByte(p, pos, head, 1);
      HoldsByte(p, pos, head, 2);
      assert p[pos + 1] == '?' as int && p[pos + 2] == ':' as int;
    }
    LeadsStep(run, readers, p, pos, s);
  }

  lemma CloseRuns(run: Runner, readers: Readers, p: seq<Byte>, pos: nat, s: Scan)
    requires Runs(run, readers, p) && !s.escaped && Holds(p, pos, Ascii(')'))
    ensures Leads(run, p, pos, s, s.Close(), pos + 1)
  {
    assert Ascii(')') == [')' as int] + [];
    AsciiAt(p, pos, ')' as int, []);
    LeadsStep(run, readers, p, pos, s);
  }

  lemma BarRuns(run: Runner, readers: Readers, p: seq<Byte>, pos: nat, s: Scan, rest: seq<Byte>)
    requires Runs(run, readers, p) && !s.escaped && Holds(p, pos, Ascii('|') + rest)
    ensures Leads(run, p, pos, s, Fine(s.Bar()), pos + 1) && Holds(p, pos + 1, rest)
  {
    AsciiAt(p, pos, '|' as int, rest);
    LeadsStep(run, readers, p, pos, s);
  }

  lemma {:induction false} ItemRuns(run: Runner, readers: Readers, p: seq<Byte>, pos: nat, i: Item, s: Scan)
    requires Runs(run, readers, p) && !s.escaped && Holds(p, pos, PrintItem(i)) && ItemReadable(readers, i)
    ensures Leads(run, p, pos, s, ItemEffect(i, s), pos + |PrintItem(i)|)
    decreases i
  {
    match i
    case Grouped(capturing, body) => GroupRuns(run, readers, p, pos, capturing, body, s);
    case Bracket(_, _, _) => BracketRuns(run, readers, p, pos, i, s);
    case Category(_, _, _) => CategoryRuns(run, readers, p, pos, i, s);
    case Char(_) => PlainItemRuns(run, readers, p, pos, i, s);
    case Dot => PlainItemRuns(run, readers, p, pos, i, s);
    case LineStart => PlainItemRuns(run, readers, p, pos, i, s);
    case LineEnd => PlainItemRuns(run, readers, p, pos, i, s);
    case _ => EscapeItemRuns(run, readers, p, pos, i, s);
  }

  lemma {:induction false} GroupRuns(run: Runner, readers: Readers, p: seq<Byte>, pos: nat, capturing: bool, body: Pattern, s: Scan)
    requires Runs(run, readers, p) && !s.escaped && Holds(p, pos, PrintItem(Grouped(capturing, body))) && Readable(readers, body)
    ensures Leads(run, p, pos, s, ItemEffect(Grouped(capturing, body), s), pos + |PrintItem(Grouped(capturing, body))|)
    decreases body, 2
  {
    var text := PrintPattern(body);
    var rest := text + Ascii(')');
    var end := pos + |PrintItem(Grouped(capturing, body))|;
    PatternClean(body);
    OpenRuns(run, readers, p, pos, capturing, s, rest);
    var inside := pos + if capturing then 1 else 3;
    HoldsParts(p, inside, text, Ascii(')'));
    HoldsByte(p, inside + |text|, Ascii(')'), 0);
    var entered := s.Open(capturing);
    if entered.Fine? {
      PatternRuns(run, readers, p, inside, body, entered.scan);
      var scanned := PatternEffect(body, entered.scan);
      if scanned.Fine? {
        CloseRuns(run, readers, p, inside + |text|, scanned.scan);
        LeadsThen(run, p, inside, entered.scan, scanned, inside + |text|, scanned.scan.Close(), end);
      } else {
        LeadsThen(run, p, inside, entered.scan, scanned, inside + |text|, scanned, end);
      }
    }
    LeadsThen(run, p, pos, s, entered, inside, ItemEffect(Grouped(capturing, body), s), end);
  }

  lemma {:induction false} PieceRuns(run: Runner, readers: Readers, p: seq<Byte>, pos: nat, piece: Piece, s: Scan)
    requires Runs(run, readers, p) && !s.escaped && Holds(p, pos, PrintPiece(piece)) && ItemReadable(readers, piece.item)
    requires !At(p, pos + |PrintPiece(piece)|, '?')
    ensures Leads(run, p, pos, s, PieceEffect(piece, s), pos + |PrintPiece(piece)|)
    decreases piece, 2
  {
    var item, text := PrintItem(piece.item), PrintQuantity(piece.quantity);
    HoldsParts(p, pos, item, text);
    ItemRuns(run, readers, p, pos, piece.item, s);
    var o := ItemEffect(piece.item, s);
    if o.Fine? {
      ItemLeavesAtom(piece.item, s);
      QuantityRuns(run, readers, p, pos + |item|, piece.quantity, o.scan);
    }
    LeadsThen(run, p, pos, s, o, pos + |item|, PieceEffect(piece, s), pos + |item| + |text|);
  }

  lemma {:induction false} BranchRuns(run: Runner, readers: Readers, p: seq<Byte>, pos: nat, b: Branch, s: Scan)
    requires Runs(run, readers, p) && !s.escaped && Holds(p, pos, PrintBranch(b)) && BranchReadable(readers, b)
    requires !At(p, pos + |PrintBranch(b)|, '?')
    ensures Leads(run, p, pos, s, BranchEffect(b, s), pos + |PrintBranch(b)|)
    decreases b
  {
    if b.Append? {
      var front, piece := b.front, b.piece;
      var mid, o := pos + |PrintBranch(front)|, BranchEffect(front, s);
      AppendParts(readers, p, pos, front, piece);
      BranchRuns(run, readers, p, pos, front, s);
      AppendRuns(run, readers, p, pos, front, piece, s, mid, o);
    }
  }

  /** The written form of a longer branch: the branch before, and then a piece. */
  lemma AppendParts(readers: Readers, p: seq<Byte>, pos: nat, front: Branch, piece: Piece)
    requires Holds(p, pos, PrintBranch(Append(front, piece))) && BranchReadable(readers, Append(front, piece))
    ensures BranchReadable(readers, front) && ItemReadable(readers, piece.item)
    ensures Holds(p, pos, PrintBranch(front)) && Holds(p, pos + |PrintBranch(front)|, PrintPiece(piece))
    ensures !At(p, pos + |PrintBranch(front)|, '?')
    ensures |PrintBranch(Append(front, piece))| == |PrintBranch(front)| + |PrintPiece(piece)|
  {
    PieceClean(piece);
    CleanAfter(p, pos, PrintBranch(front), PrintPiece(piece));
  }

  lemma CleanAfter(p: seq<Byte>, pos: nat, front: seq<Byte>, text: seq<Byte>)
    requires Holds(p, pos, front + text) && Clean(text) && text != []
    ensures Holds(p, pos, front) && Holds(p, pos + |front|, text)
    ensures !At(p, pos + |front|, '?')
  {
    HoldsParts(p, pos, front, text);
    NoQuestion(p, pos + |front|, text);
  }

  lemma PieceClean(piece: Piece)
    ensures PrintPiece(piece) != [] && Clean(PrintPiece(piece))
  {
    ItemClean(piece.item);
  }

  /** One more piece after a branch that has led to `mid`. */
  lemma {:induction false} AppendRuns(run: Runner, readers: Readers, p: seq<Byte>, pos: nat, front: Branch, piece: Piece, s: Scan, mid: nat, o: Outcome)
    requires Runs(run, readers, p) && Holds(p, mid, PrintPiece(piece)) && ItemReadable(readers, piece.item)
    requires Leads(run, p, pos, s, o, mid) && o == BranchEffect(front, s)
    requires !At(p, mid + |PrintPiece(piece)|, '?')
    ensures Leads(run, p, pos, s, BranchEffect(Append(front, piece), s), mid + |PrintPiece(piece)|)
    decreases piece, 3
  {
    var end := mid + |PrintPiece(piece)|;
    if o.Fine? {
      PieceRuns(run, readers, p, mid, piece, o.scan);
    }
    LeadsThen(run, p, pos, s, o, mid, if o.Fails? then o else PieceEffect(piece, o.scan), end);
  }

  /** Scanning the written form of a pattern has the pattern's effect, whatever surrounds it. */
  lemma {:induction false} PatternRuns(run: Runner, readers: Readers, p: seq<Byte>, pos: nat, x: Pattern, s: Scan)
    requires Runs(run, readers, p) && !s.escaped && Holds(p, pos, PrintPattern(x)) && Readable(readers, x)
    requires !At(p, pos + |PrintPattern(x)|, '?')
    ensures Leads(run, p, pos, s, PatternEffect(x, s), pos + |PrintPattern(x)|)
    decreases x, 1
  {
    match x
    case Only(b) => BranchRuns(run, readers, p, pos, b, s);
    case Or(front, last) => OrRuns(run, readers, p, pos, front, last, s);
  }

  lemma {:induction false} OrRuns(run: Runner, readers: Readers, p: seq<Byte>, pos: nat, front: Pattern, last: Branch, s: Scan)
    requires Runs(run, readers, p) && !s.escaped && Holds(p, pos, PrintPattern(front) + (Ascii('|') + PrintBranch(last)))
    requires Readable(readers, front) && BranchReadable(readers, last)
    requires !At(p, pos + |PrintPattern(Or(front, last))|, '?')
    ensures Leads(run, p, pos, s, PatternEffect(Or(front, last), s), pos + |PrintPattern(Or(front, last))|)
    decreases Or(front, last), 0
  {
    var k := |PrintPattern(front)|;
    var end := pos + |PrintPattern(Or(front, last))|;
    HoldsParts(p, pos, PrintPattern(front), Ascii('|') + PrintBranch(last));
    HoldsByte(p, pos + k, Ascii('|') + PrintBranch(last), 0);
    PatternRuns(run, readers, p, pos, front, s);
    var o := PatternEffect(front, s);
    if o.Fine? {
      BarRuns(run, readers, p, pos + k, o.scan, PrintBranch(last));
      BranchRuns(run, readers, p, pos + k + 1, last, o.scan.Bar());
      LeadsOn(run, p, pos + k, o.scan, o.scan.Bar(), pos + k + 1, BranchEffect(last, o.scan.Bar()), end);
    }
    LeadsThen(run, p, pos, s, o, pos + k, PatternEffect(Or(front, last), s), end);
  }

  /** The scanner's verdict on the written form of a pattern is the pattern's own effect. */
  lemma {:induction false} ScanPrinted(readers: Readers, x: Pattern)
    requires readers.Sound() && Readable(readers, x)
    ensures Run(readers, PrintPattern(x), 0, START) == PatternEffect(x, START)
    ensures PatternEffect(x, START).Fine? ==> !PatternEffect(x, START).scan.escaped
  {
    var p := PrintPattern(x);
    var run: Runner := (pos: nat, s: Scan) => if pos <= |p| then Run(readers, p, pos, s) else Fails(NoError);
    assert p[0..0 + |p|] == p;
    PatternRuns(run, readers, p, 0, x, START);
    assert run(0, START) == Run(readers, p, 0, START);
    var o := PatternEffect(x, START);
    if o.Fine? {
      assert run(|p|, o.scan) == Run(readers, p, |p|, o.scan);
    }
  }
}
