// Bracket expressions and category names: what the scanner of regex_engine.h
// reads after an opening bracket or \p, and the classes that this builds.

module Brackets {
  import opened Options
  import opened Utf8
  import opened Encoding
  import opened RuneClasses
  import opened RegexSemantics
  import opened Postfix
  import opened ScanMachine
  import opened ClassTable
  import opened PatternSyntax
  import opened WrittenMeaning

  // ---------------------------------------------------------------------
  // Named sets
  // ---------------------------------------------------------------------

  datatype PosixName =
    | Alpha | Digit | Alnum | Blank | Space | XDigit | Upper | Lower | Printing | Graph | Cntrl | Punct | AsciiOnly

  function Spelling(n: PosixName): (s: string)
    ensures s != "" && forall k :: 0 <= k < |s| ==> 'a' <= s[k] <= 'z'
  {
    match n
    case Alpha => "alpha"
    case Digit => "digit"
    case Alnum => "alnum"
    case Blank => "blank"
    case Space => "space"
    case XDigit => "xdigit"
    case Upper => "upper"
    case Lower => "lower"
    case Printing => "print"
    case Graph => "graph"
    case Cntrl => "cntrl"
    case Punct => "punct"
    case AsciiOnly => "ascii"
  }

  function Spelled(n: PosixName): (s: seq<Byte>)
    ensures s != [] && forall k :: 0 <= k < |s| ==> 'a' as int <= s[k] <= 'z' as int
  {
    seq(|Spelling(n)|, k requires 0 <= k < |Spelling(n)| => Spelling(n)[k] as int)
  }

  function PosixRanges(n: PosixName): seq<Range>
  {
    match n
    case Alpha => [('A' as int, 'Z' as int), ('a' as int, 'z' as int)]
    case Digit => [('0' as int, '9' as int)]
    case Alnum => [('0' as int, '9' as int), ('A' as int, 'Z' as int), ('a' as int, 'z' as int)]
    case Blank => [(32, 32), (9, 9)]
    case Space => [(9, 13), (32, 32)]
    case XDigit => [('0' as int, '9' as int), ('A' as int, 'F' as int), ('a' as int, 'f' as int)]
    case Upper => [('A' as int, 'Z' as int)]
    case Lower => [('a' as int, 'z' as int)]
    case Printing => [(0x20, 0x7E)]
    case Graph => [(0x21, 0x7E)]
    case Cntrl => [(0, 0x1F), (0x7F, 0x7F)]
    case Punct => [(0x21, 0x2F), (0x3A, 0x40), (0x5B, 0x60), (0x7B, 0x7E)]
    case AsciiOnly => [(0, 0x7F)]
  }

  predicate IsLetter(r: Rune) { 'A' as int <= r <= 'Z' as int || 'a' as int <= r <= 'z' as int }

  predicate IsVisible(r: Rune) { IsDigit(r) || IsLetter(r) || IsPunctuation(r) }

  /** What the names stand for among the ASCII characters. */
  predicate PosixMember(n: PosixName, r: Rune)
  {
    match n
    case Alpha => IsLetter(r)
    case Digit => IsDigit(r)
    case Alnum => IsLetter(r) || IsDigit(r)
    case Blank => r == 32 || r == 9
    case Space => 9 <= r <= 13 || r == 32
    case XDigit => r < 128 && HexDigit(r).Some?
    case Upper => 'A' as int <= r <= 'Z' as int
    case Lower => 'a' as int <= r <= 'z' as int
    case Printing => IsVisible(r) || r == 32
    case Graph => IsVisible(r)
    case Cntrl => r < 128 && !IsVisible(r) && r != 32
    case Punct => IsPunctuation(r)
    case AsciiOnly => r < 128
  }

  const POSIX_NAMES: seq<PosixName> :=
    [Alpha, Digit, Alnum, Blank, Space, XDigit, Upper, Lower, Printing, Graph, Cntrl, Punct, AsciiOnly]

  /** The first of the names that is spelled like this. */
  function NamedAmong(ns: seq<PosixName>, name: seq<Byte>): Option<PosixName>
  {
    if ns == [] then None else if name == Spelled(ns[0]) then Some(ns[0]) else NamedAmong(ns[1..], name)
  }

  function PosixNamed(name: seq<Byte>): Option<PosixName>
  {
    NamedAmong(POSIX_NAMES, name)
  }

  /** The Unicode category tables: ranges by name. */
  type Tables = seq<Byte> -> Option<seq<Range>>

  /** Every table is made of ranges of runes that start at no inner surrogate. */
  ghost predicate Tabled(tables: Tables)
  {
    forall name: seq<Byte> :: tables(name).Some? ==> Edged(tables(name).value)
  }

  function CategoryClass(ranges: seq<Range>, negated: bool): RuneClass
  {
    var c := Finalized(ranges);
    if negated then Complemented(c.ranges) else c
  }

  function CategorySet(tables: Tables, name: seq<Byte>, negated: bool): Option<RuneClass>
  {
    if name == [] || |name| > 3 || tables(name).None? then None
    else Some(CategoryClass(tables(name).value, negated))
  }

  // ---------------------------------------------------------------------
  // Reading
  // ---------------------------------------------------------------------

  /**
   * What was read up to a position: further ranges, or an error. Either way
   * the classes of the categories read have taken labels.
   */
  datatype Reading = More(haul: Haul, pos: nat) | Refused(error: ErrorCode, labels: seq<RuneClass>)

  /** Ranges that were collected, and the category classes that have taken labels meanwhile. */
  datatype Haul = Haul(ranges: seq<Range>, labels: seq<RuneClass>)
  {
    function Plus(h: Haul): Haul { Haul(ranges + h.ranges, labels + h.labels) }

    ghost predicate Ready() { Nearly(ranges) && forall j :: 0 <= j < |labels| ==> labels[j].Ready() }
  }

  const NOTHING: Haul := Haul([], [])
  const DASH: Haul := Haul([('-' as int, '-' as int)], [])

  function Just(ranges: seq<Range>): Haul { Haul(ranges, []) }

  /** The end of a range, and the position after it. */
  datatype CharRead = One(rune: Rune, pos: nat) | NotOne(error: ErrorCode)

  /** Where a category name ends. */
  function BraceAfter(p: seq<Byte>, pos: nat): (e: nat)
    requires pos <= |p|
    ensures pos <= e <= |p|
    decreases |p| - pos
  {
    if pos == |p| || p[pos] == '}' as int then pos else BraceAfter(p, pos + 1)
  }

  /** The name in braces after \p or \P. */
  function ReadCategory(tables: Tables, p: seq<Byte>, pos: nat, negated: bool): (r: ClassRead)
    ensures r.Read? ==> pos + r.width <= |p|
    ensures r.inner == []
  {
    if !At(p, pos, '{') then Unreadable(ErrorBadCharClass, [])
    else
      var e := BraceAfter(p, pos + 1);
      if e == |p| then Unreadable(ErrorBadCharClass, [])
      else
        match CategorySet(tables, p[pos + 1..e], negated)
        case None => Unreadable(ErrorBadCharClass, [])
        case Some(c) => Read(c, e + 1 - pos, [])
  }

  /** Where the name of a POSIX class ends. */
  function NameAfter(p: seq<Byte>, pos: nat): (e: nat)
    requires pos <= |p|
    ensures pos <= e <= |p|
    decreases |p| - pos
  {
    if pos == |p| || p[pos] == ':' as int || p[pos] == ']' as int then pos else NameAfter(p, pos + 1)
  }

  /** A POSIX class, after its opening `[:`. */
  function ReadPosix(p: seq<Byte>, pos: nat): (r: Reading)
    requires pos <= |p|
    ensures r.More? ==> pos < r.pos <= |p|
  {
    var e := NameAfter(p, pos);
    if !At(p, e, ':') || !At(p, e + 1, ']') then Refused(ErrorBadCharClass, [])
    else
      match PosixNamed(p[pos..e])
      case None => Refused(ErrorBadCharClass, [])
      case Some(n) => More(Just(PosixRanges(n)), e + 2)
  }

  /** The rune for an escaped one; `pos` is the position after that. */
  function ReadEscaped(p: seq<Byte>, pos: nat, r: Rune): (c: CharRead)
    requires pos <= |p|
    ensures c.One? ==> pos <= c.pos <= |p|
  {
    if r == 'x' as int then
      match ReadHex(p, pos) {
        case None => NotOne(ErrorBadEscape)
        case Some(v) => One(v, pos + 2)
      }
    else
      match EscapeValue(r)
      case None => NotOne(ErrorBadEscape)
      case Some(v) => One(v, pos)
  }

  /** The upper end of a range. */
  function ReadHigh(p: seq<Byte>, pos: nat): (c: CharRead)
    requires pos < |p|
    ensures c.One? ==> pos < c.pos <= |p|
  {
    if p[pos] == '\\' as int then
      if pos + 1 == |p| then NotOne(ErrorBadEscape)
      else var d := DecodeRune(p, pos + 1); ReadEscaped(p, pos + 1 + d.width, d.rune)
    else var d := DecodeRune(p, pos); One(d.rune, pos + d.width)
  }

  /** A dash makes a range unless the bracket closes after it. */
  predicate DashAt(p: seq<Byte>, pos: nat)
  {
    pos + 1 < |p| && p[pos] == '-' as int && p[pos + 1] != ']' as int
  }

  /** A character, or the range that it starts. */
  function ReadThrough(p: seq<Byte>, low: Rune, pos: nat): (r: Reading)
    requires pos <= |p|
    ensures r.More? ==> pos <= r.pos <= |p|
  {
    if !DashAt(p, pos) then More(Just([(low, low)]), pos)
    else
      match ReadHigh(p, pos + 1)
      case NotOne(e) => Refused(e, [])
      case One(high, next) => if low > high then Refused(ErrorBadCharRange, []) else More(Just([(low, high)]), next)
  }

  /** The ranges of a category; its class takes a label. */
  function CategoryReading(r: ClassRead, pos: nat): Reading
  {
    match r
    case Unreadable(e, _) => Refused(e, [])
    case Read(c, width, _) => More(Haul(c.ranges, [c]), pos + width)
  }

  /** What an escape stands for whose character is `r`, if that is a set; `pos` is the position after the character. */
  function EscapedSet(tables: Tables, p: seq<Byte>, pos: nat, r: Rune): (found: Option<Reading>)
    requires pos <= |p|
    ensures found.Some? && found.value.More? ==> pos <= found.value.pos <= |p|
  {
    if r == 'p' as int || r == 'P' as int then Some(CategoryReading(ReadCategory(tables, p, pos, r == 'P' as int), pos))
    else if IsShorthand(r) then Some(More(Just(ShorthandSet(r, false).ranges), pos))
    else if 'A' as int <= r <= 'Z' as int && IsShorthand(r + 32) then Some(More(Just(ShorthandSet(r + 32, true).ranges), pos))
    else None
  }

  /** An escape; `pos` is the position after the backslash. */
  function ReadEscape(tables: Tables, p: seq<Byte>, pos: nat): (r: Reading)
    requires pos <= |p|
    ensures r.More? ==> pos < r.pos <= |p|
  {
    if pos == |p| then Refused(ErrorTrailingBackslash, [])
    else
      var d := DecodeRune(p, pos);
      match EscapedSet(tables, p, pos + d.width, d.rune)
      case Some(reading) => reading
      case None =>
        match ReadEscaped(p, pos + d.width, d.rune)
        case NotOne(e) => Refused(e, [])
        case One(low, q) => ReadThrough(p, low, q)
  }

  function ReadElement(tables: Tables, p: seq<Byte>, pos: nat): (r: Reading)
    requires pos < |p|
    ensures r.More? ==> pos < r.pos <= |p|
  {
    if p[pos] == '[' as int && At(p, pos + 1, ':') then ReadPosix(p, pos + 2)
    else if p[pos] == '\\' as int then ReadEscape(tables, p, pos + 1)
    else var d := DecodeRune(p, pos); ReadThrough(p, d.rune, pos + d.width)
  }

  /** The elements up to the closing bracket. */
  function ReadElements(tables: Tables, p: seq<Byte>, pos: nat, had: Haul): (r: Reading)
    requires pos <= |p|
    ensures r.More? ==> pos < r.pos <= |p|
    decreases |p| - pos
  {
    if pos == |p| then Refused(ErrorMissingBracket, had.labels)
    else if p[pos] == ']' as int then More(had, pos + 1)
    else
      match ReadElement(tables, p, pos)
      case Refused(e, labels) => Refused(e, had.labels + labels)
      case More(haul, next) => ReadElements(tables, p, next, had.Plus(haul))
  }

  function BracketClass(added: seq<Range>, negated: bool): RuneClass
  {
    var c := Finalized(added);
    if negated then Complemented(c.ranges) else c
  }

  /** A bracket expression, after its opening bracket. */
  function ReadBracket(tables: Tables, p: seq<Byte>, pos: nat): (r: ClassRead)
    ensures r.Read? ==> pos + r.width <= |p|
  {
    var negated := At(p, pos, '^');
    var start := if negated then pos + 1 else pos;
    if start >= |p| || p[start] == ']' as int then Unreadable(ErrorMissingBracket, [])
    else
      match ReadElements(tables, p, start, NOTHING)
      case Refused(e, labels) => Unreadable(e, labels)
      case More(haul, end) => Read(BracketClass(haul.ranges, negated), end - pos, haul.labels)
  }

  /** The scanner's readers over given category tables. */
  function ReadersOver(tables: Tables): Readers
  {
    Readers((p: seq<Byte>, pos: nat) => ReadBracket(tables, p, pos),
            (p: seq<Byte>, pos: nat) => ReadCategory(tables, p, pos, false),
            (p: seq<Byte>, pos: nat) => ReadCategory(tables, p, pos, true))
  }

  // ---------------------------------------------------------------------
  // The readers are sound
  // ---------------------------------------------------------------------

  lemma CategoryReady(ranges: seq<Range>, negated: bool)
    requires Edged(ranges)
    ensures CategoryClass(ranges, negated).Ready() && Edged(CategoryClass(ranges, negated).ranges)
  {
    FinalizedRight(ranges);
    ComplementedRight(Finalized(ranges).ranges);
  }

  lemma BracketReady(added: seq<Range>, negated: bool)
    requires Nearly(added)
    ensures BracketClass(added, negated).Ready()
    ensures Bounded(added) ==>
              forall r: Rune :: InRanges(BracketClass(added, negated).ranges, r) <==> if negated then IsScalar(r) && !InRanges(added, r) else InRanges(added, r)
  {
    FinalizedRight(added);
    if negated {
      ComplementedRight(Finalized(added).ranges);
    }
  }

  lemma BracketMember(added: seq<Range>, negated: bool, r: Rune)
    requires Bounded(added)
    ensures BracketClass(added, negated).Ready()
    ensures InRanges(BracketClass(added, negated).ranges, r) <==> if negated then IsScalar(r) && !InRanges(added, r) else InRanges(added, r)
  {
    BracketReady(added, negated);
  }

  ghost predicate ReadingOk(r: Reading)
  {
    match r
    case More(haul, _) => haul.Ready()
    case Refused(e, labels) => e != NoError && Haul([], labels).Ready()
  }

  lemma PosixNearly(p: seq<Byte>, pos: nat)
    requires pos <= |p|
    ensures var r := ReadPosix(p, pos); ReadingOk(r)
  {
    var e := NameAfter(p, pos);
    if At(p, e, ':') && At(p, e + 1, ']') {
      var n := PosixNamed(p[pos..e]);
      if n.Some? {
        PosixReady(n.value);
      }
    }
  }

  lemma PosixReady(n: PosixName)
    ensures Just(PosixRanges(n)).Ready() && Bounded(PosixRanges(n))
  {
  }

  lemma ThroughNearly(p: seq<Byte>, low: Rune, pos: nat)
    requires pos <= |p|
    ensures ReadingOk(ReadThrough(p, low, pos))
  {
  }

  /** Escapes that stand for sets. */
  lemma SetNearly(tables: Tables, p: seq<Byte>, pos: nat, r: Rune)
    requires Tabled(tables) && pos <= |p|
    ensures var found := EscapedSet(tables, p, pos, r); found.Some? ==> ReadingOk(found.value)
  {
    if r == 'p' as int || r == 'P' as int {
      CategoryNearly(tables, p, pos, r == 'P' as int);
    } else if IsShorthand(r) {
      LettersNearly(r, false, pos);
    } else if 'A' as int <= r <= 'Z' as int && IsShorthand(r + 32) {
      LettersNearly(r + 32, true, pos);
    }
  }

  lemma LettersNearly(letter: Letter, negated: bool, pos: nat)
    ensures ReadingOk(More(Just(ShorthandSet(letter, negated).ranges), pos))
  {
    ShorthandFits(letter, negated);
  }

  lemma EscapeNearly(tables: Tables, p: seq<Byte>, pos: nat)
    requires Tabled(tables) && pos <= |p|
    ensures ReadingOk(ReadEscape(tables, p, pos))
  {
    if pos < |p| {
      var d := DecodeRune(p, pos);
      SetNearly(tables, p, pos + d.width, d.rune);
      var c := ReadEscaped(p, pos + d.width, d.rune);
      if c.One? {
        ThroughNearly(p, c.rune, c.pos);
      }
    }
  }

  lemma ElementNearly(tables: Tables, p: seq<Byte>, pos: nat)
    requires Tabled(tables) && pos < |p|
    ensures var r := ReadElement(tables, p, pos); ReadingOk(r)
  {
    if p[pos] == '[' as int && At(p, pos + 1, ':') {
      PosixNearly(p, pos + 2);
    } else if p[pos] == '\\' as int {
      EscapeNearly(tables, p, pos + 1);
    }
  }

  lemma CategoryNearly(tables: Tables, p: seq<Byte>, pos: nat, negated: bool)
    requires Tabled(tables)
    ensures var r := ReadCategory(tables, p, pos, negated);
            r.inner == [] && if r.Read? then r.class_.Ready() && Nearly(r.class_.ranges) else r.error != NoError
  {
    if At(p, pos, '{') {
      var e := BraceAfter(p, pos + 1);
      if e < |p| {
        var name := p[pos + 1..e];
        if tables(name).Some? {
          CategoryReady(tables(name).value, negated);
        }
      }
    }
  }

  lemma {:induction false} ElementsNearly(tables: Tables, p: seq<Byte>, pos: nat, had: Haul)
    requires Tabled(tables) && pos <= |p| && had.Ready()
    ensures ReadingOk(ReadElements(tables, p, pos, had))
    decreases |p| - pos
  {
    if pos < |p| && p[pos] != ']' as int {
      ElementNearly(tables, p, pos);
      var r := ReadElement(tables, p, pos);
      if r.More? {
        ElementsNearly(tables, p, r.pos, had.Plus(r.haul));
      }
    }
  }

  ghost predicate ReadOk(p: seq<Byte>, pos: nat, r: ClassRead)
  {
    && (forall j :: 0 <= j < |r.inner| ==> r.inner[j].Ready())
    && if r.Read? then pos + r.width <= |p| && r.class_.Ready() else r.error != NoError
  }

  /** Reading stays inside the pattern and builds classes that are ready for matching. */
  lemma {:induction false} ReadersAreSound(tables: Tables)
    requires Tabled(tables)
    ensures ReadersOver(tables).Sound()
  {
    forall p: seq<Byte>, pos: nat | pos <= |p|
      ensures ReadOk(p, pos, ReadBracket(tables, p, pos))
    {
      var negated := At(p, pos, '^');
      var start := if negated then pos + 1 else pos;
      if start < |p| && p[start] != ']' as int {
        ElementsNearly(tables, p, start, NOTHING);
        var r := ReadElements(tables, p, start, NOTHING);
        if r.More? {
          BracketReady(r.haul.ranges, negated);
        }
      }
    }
    forall p: seq<Byte>, pos: nat, negated: bool | pos <= |p|
      ensures ReadOk(p, pos, ReadCategory(tables, p, pos, negated))
    {
      CategoryNearly(tables, p, pos, negated);
    }
  }

  // ---------------------------------------------------------------------
  // Written bracket expressions
  // ---------------------------------------------------------------------

  /** A rune that stands for itself in a bracket expression. */
  type Bare = r: Rune | r <= MAX_ENCODABLE && r != '[' as int && r != '\\' as int && r != ']' as int && r != '-' as int witness 'a' as int

  type CategoryName = s: seq<Byte> | 1 <= |s| <= 3 && (forall k :: 0 <= k < |s| ==> s[k] != '}' as int) witness ['L' as int]

  datatype Character = Itself(rune: Bare) | Quoted(code: Escapable) | InHex(high: Hex, low: Hex)

  datatype Element =
    | Single(one: Character)
    | Through(from: Character, to: Character)
    | Letters(letter: Letter, negated: bool)
    | Posix(posix: PosixName)
    | Listed(name: CategoryName, negated: bool)

  datatype Elements = NoMore | Then(head: Element, tail: Elements)

  /** The elements, with a dash before or after them. */
  datatype Expression = Expression(negated: bool, dash: bool, elements: Elements, lastDash: bool)
  {
    /** There is something between the brackets, and no caret is taken for a negation. */
    predicate Proper()
    {
      && (dash || lastDash || elements.Then?)
      && (!negated && !dash && elements.Then? ==> !StartsWithCaret(elements.head))
    }
  }

  predicate StartsWithCaret(e: Element)
  {
    (e.Single? && e.one == Itself('^' as int)) || (e.Through? && e.from == Itself('^' as int))
  }

  function PrintCharacter(c: Character): seq<Byte>
  {
    match c
    case Itself(r) => Encode(r)
    case Quoted(r) => Ascii('\\') + [r]
    case InHex(h, l) => Ascii('\\') + ([('x' as int) as Byte] + [h, l])
  }

  function PrintElement(e: Element): seq<Byte>
  {
    match e
    case Single(c) => PrintCharacter(c)
    case Through(a, b) => PrintCharacter(a) + (Ascii('-') + PrintCharacter(b))
    case Letters(letter, negated) => Ascii('\\') + [if negated then letter - 32 else letter]
    case Posix(n) => Ascii('[') + (Ascii(':') + (Spelled(n) + (Ascii(':') + Ascii(']'))))
    case Listed(name, negated) => Ascii('\\') + ([(if negated then 'P' else 'p') as int as Byte] + (Ascii('{') + (name + Ascii('}'))))
  }

  function PrintElements(es: Elements, end: seq<Byte>): seq<Byte>
  {
    match es
    case NoMore => end
    case Then(head, tail) => PrintElement(head) + PrintElements(tail, end)
  }

  function PrintEnd(x: Expression): seq<Byte>
  {
    (if x.lastDash then Ascii('-') else []) + Ascii(']')
  }

  /** The text after the opening bracket. */
  function PrintBracket(x: Expression): seq<Byte>
  {
    (if x.negated then Ascii('^') else []) + ((if x.dash then Ascii('-') else []) + PrintElements(x.elements, PrintEnd(x)))
  }

  // ---------------------------------------------------------------------
  // What the elements stand for
  // ---------------------------------------------------------------------

  function CharacterValue(c: Character): Rune
  {
    match c
    case Itself(r) => r
    case Quoted(r) => EscapeValue(r).value
    case InHex(h, l) => HexDigit(h).value * 16 + HexDigit(l).value
  }

  /** What an element brings, unless its ends are inverted or its category is unknown. */
  function ElementResult(tables: Tables, e: Element): Result
  {
    match e
    case Single(c) => Brings(Just([(CharacterValue(c), CharacterValue(c))]))
    case Through(a, b) =>
      if CharacterValue(a) > CharacterValue(b) then Fault(ErrorBadCharRange, [])
      else Brings(Just([(CharacterValue(a), CharacterValue(b))]))
    case Letters(letter, negated) => Brings(Just(ShorthandSet(letter, negated).ranges))
    case Posix(n) => Brings(Just(PosixRanges(n)))
    case Listed(name, negated) =>
      match CategorySet(tables, name, negated)
      case None => Fault(ErrorBadCharClass, [])
      case Some(c) => Brings(Haul(c.ranges, [c]))
  }

  datatype Result = Brings(haul: Haul) | Fault(error: ErrorCode, labels: seq<RuneClass>)

  /** What all elements bring, or the first fault. */
  function ElementsResult(tables: Tables, es: Elements, had: Haul): Result
  {
    match es
    case NoMore => Brings(had)
    case Then(head, tail) =>
      match ElementResult(tables, head)
      case Fault(e, labels) => Fault(e, had.labels + labels)
      case Brings(haul) => ElementsResult(tables, tail, had.Plus(haul))
  }

  function FirstHaul(x: Expression): Haul { if x.dash then DASH else NOTHING }

  function LastRanges(lastDash: bool): seq<Range> { if lastDash then DASH.ranges else [] }

  /** What reading the expression yields; `width` is the length of its text. */
  function ExpressionRead(tables: Tables, x: Expression, width: nat): ClassRead
  {
    match ElementsResult(tables, x.elements, FirstHaul(x))
    case Fault(e, labels) => Unreadable(e, labels)
    case Brings(haul) => Read(BracketClass(haul.ranges + LastRanges(x.lastDash), x.negated), width, haul.labels)
  }

  /** No range is inverted and every category is known. */
  predicate ElementSensible(tables: Tables, e: Element)
  {
    match e
    case Through(a, b) => CharacterValue(a) <= CharacterValue(b)
    case Listed(name, _) => tables(name).Some?
    case _ => true
  }

  predicate Sensible(tables: Tables, es: Elements)
  {
    es.Then? ==> ElementSensible(tables, es.head) && Sensible(tables, es.tail)
  }

  predicate CategoryMember(ranges: seq<Range>, negated: bool, r: Rune)
  {
    if negated then IsScalar(r) && !InRanges(ranges, r) else InRanges(ranges, r)
  }

  predicate ElementMember(tables: Tables, e: Element, r: Rune)
    requires ElementSensible(tables, e)
  {
    match e
    case Single(c) => r == CharacterValue(c)
    case Through(a, b) => CharacterValue(a) <= r <= CharacterValue(b)
    case Letters(letter, negated) => IsScalar(r) && ShorthandMember(letter, r) != negated
    case Posix(n) => PosixMember(n, r)
    case Listed(name, negated) => CategoryMember(tables(name).value, negated, r)
  }

  predicate Member(tables: Tables, es: Elements, r: Rune)
    requires Sensible(tables, es)
  {
    es.Then? && (ElementMember(tables, es.head, r) || Member(tables, es.tail, r))
  }

  /** The runes that a bracket expression describes. */
  predicate Describes(tables: Tables, x: Expression, r: Rune)
    requires Sensible(tables, x.elements)
  {
    var listed := Member(tables, x.elements, r) || ((x.dash || x.lastDash) && r == '-' as int);
    if x.negated then IsScalar(r) && !listed else listed
  }

  lemma PosixMeaning(n: PosixName, r: Rune)
    ensures InRanges(PosixRanges(n), r) <==> PosixMember(n, r)
  {
    var s := PosixRanges(n);
    assert s[0].0 <= r <= s[0].1 ==> InRanges(s, r);
    assert |s| > 1 && s[1].0 <= r <= s[1].1 ==> InRanges(s, r);
    assert |s| > 2 && s[2].0 <= r <= s[2].1 ==> InRanges(s, r);
    assert |s| > 3 && s[3].0 <= r <= s[3].1 ==> InRanges(s, r);
  }

  lemma CategoryMeaning(ranges: seq<Range>, negated: bool, r: Rune)
    requires Edged(ranges)
    ensures InRanges(CategoryClass(ranges, negated).ranges, r) <==> CategoryMember(ranges, negated, r)
  {
    FinalizedRight(ranges);
    ComplementedRight(Finalized(ranges).ranges);
  }

  lemma ElementMeaning(tables: Tables, e: Element, r: Rune)
    requires Tabled(tables) && ElementSensible(tables, e)
    ensures ElementResult(tables, e).Brings? && Bounded(ElementResult(tables, e).haul.ranges)
    ensures InRanges(ElementResult(tables, e).haul.ranges, r) <==> ElementMember(tables, e, r)
  {
    match e
    case Single(c) =>
      CharacterBounded(c);
      assert [(CharacterValue(c), CharacterValue(c))][0] == (CharacterValue(c), CharacterValue(c));
    case Through(a, b) =>
      CharacterBounded(b);
      assert [(CharacterValue(a), CharacterValue(b))][0] == (CharacterValue(a), CharacterValue(b));
    case Letters(letter, negated) => ShorthandFits(letter, negated);
    case Posix(n) =>
      PosixReady(n);
      PosixMeaning(n, r);
    case Listed(name, negated) =>
      CategoryReady(tables(name).value, negated);
      CategoryMeaning(tables(name).value, negated, r);
  }

  lemma CharacterBounded(c: Character)
    ensures CharacterValue(c) <= MAX_RUNE
  {
  }

  lemma {:induction false} ElementsMeaning(tables: Tables, es: Elements, had: Haul, r: Rune)
    requires Tabled(tables) && Sensible(tables, es) && Bounded(had.ranges)
    ensures ElementsResult(tables, es, had).Brings? && Bounded(ElementsResult(tables, es, had).haul.ranges)
    ensures InRanges(ElementsResult(tables, es, had).haul.ranges, r) <==> InRanges(had.ranges, r) || Member(tables, es, r)
    decreases es
  {
    if es.Then? {
      ElementMeaning(tables, es.head, r);
      var haul := ElementResult(tables, es.head).haul;
      InRangesConcat(had.ranges, haul.ranges, r);
      ElementsMeaning(tables, es.tail, had.Plus(haul), r);
    }
  }

  /** The class of a sensible expression has exactly the runes that the expression describes. */
  lemma {:induction false} ExpressionMeaning(tables: Tables, x: Expression, width: nat, r: Rune)
    requires Tabled(tables) && Sensible(tables, x.elements)
    ensures ExpressionRead(tables, x, width).Read? && ExpressionRead(tables, x, width).class_.Ready()
    ensures InRanges(ExpressionRead(tables, x, width).class_.ranges, r) <==> Describes(tables, x, r)
  {
    var last := LastRanges(x.lastDash);
    assert DASH.ranges[0] == ('-' as int, '-' as int);
    ElementsMeaning(tables, x.elements, FirstHaul(x), r);
    var ranges := ElementsResult(tables, x.elements, FirstHaul(x)).haul.ranges;
    InRangesConcat(ranges, last, r);
    BracketMember(ranges + last, x.negated, r);
  }

  /** A class results exactly if the expression is sensible. */
  lemma {:induction false} ReadIffSensible(tables: Tables, es: Elements, had: Haul)
    ensures ElementsResult(tables, es, had).Brings? <==> Sensible(tables, es)
    decreases es
  {
    if es.Then? && ElementResult(tables, es.head).Brings? {
      ReadIffSensible(tables, es.tail, had.Plus(ElementResult(tables, es.head).haul));
    }
  }

  // ---------------------------------------------------------------------
  // Reading undoes writing
  // ---------------------------------------------------------------------

  /** An encoded rune starts with an ASCII byte only if it is that byte. */
  lemma FirstByte(p: seq<Byte>, pos: nat, r: Rune, b: Byte)
    requires r <= MAX_ENCODABLE && Holds(p, pos, Encode(r)) && b < 128 && r != b
    ensures p[pos] != b
  {
    HoldsByte(p, pos, Encode(r), 0);
  }

  lemma QuotedRead(p: seq<Byte>, pos: nat, b: Byte)
    requires Holds(p, pos, Ascii('\\') + [b]) && EscapeValue(b).Some?
    ensures p[pos] == '\\' as int && pos + 1 < |p| && DecodeRune(p, pos + 1) == Decoded(b, 1)
    ensures ReadEscaped(p, pos + 2, b) == One(EscapeValue(b).value, pos + 2)
  {
    AsciiAt(p, pos, '\\' as int, [b]);
    assert [b] == [b] + [];
    AsciiAt(p, pos + 1, b, []);
  }

  lemma InHexRead(p: seq<Byte>, pos: nat, h: Hex, l: Hex)
    requires Holds(p, pos, Ascii('\\') + (['x' as int] + [h, l]))
    ensures p[pos] == '\\' as int && pos + 1 < |p| && DecodeRune(p, pos + 1) == Decoded('x' as int, 1)
    ensures pos + 4 <= |p| && ReadEscaped(p, pos + 2, 'x' as int) == One(HexDigit(h).value * 16 + HexDigit(l).value, pos + 4)
  {
    var b: Byte := 'x' as int;
    AsciiAt(p, pos, '\\' as int, [b] + [h, l]);
    AsciiAt(p, pos + 1, b, [h, l]);
    HexRead(p, pos + 2, h, l);
  }

  lemma HighRead(p: seq<Byte>, pos: nat, c: Character)
    requires Holds(p, pos, PrintCharacter(c))
    ensures pos < |p| && ReadHigh(p, pos) == One(CharacterValue(c), pos + |PrintCharacter(c)|)
  {
    match c
    case Itself(r) =>
      FirstByte(p, pos, r, '\\' as int);
      DecodeEncoded(p, pos, r);
    case Quoted(r) => QuotedRead(p, pos, r);
    case InHex(h, l) => InHexRead(p, pos, h, l);
  }

  /** A character is read as the start of an element, which it may be alone. */
  lemma LowRead(tables: Tables, p: seq<Byte>, pos: nat, c: Character)
    requires Holds(p, pos, PrintCharacter(c))
    ensures var next := pos + |PrintCharacter(c)|;
            && pos < next <= |p| && p[pos] != ']' as int
            && ReadElement(tables, p, pos) == ReadThrough(p, CharacterValue(c), next)
    ensures c != Itself('^' as int) ==> p[pos] != '^' as int
  {
    match c
    case Itself(r) =>
      FirstByte(p, pos, r, '\\' as int);
      FirstByte(p, pos, r, '[' as int);
      FirstByte(p, pos, r, ']' as int);
      if r != '^' as int { FirstByte(p, pos, r, '^' as int); }
      DecodeEncoded(p, pos, r);
    case Quoted(r) => QuotedRead(p, pos, r);
    case InHex(h, l) => InHexRead(p, pos, h, l);
  }

  /** No element ends with a dash or begins with one. */
  lemma NoDashFirst(p: seq<Byte>, pos: nat, e: Element)
    requires Holds(p, pos, PrintElement(e))
    ensures pos < |p| && p[pos] != '-' as int && p[pos] != ']' as int
    ensures p[pos] == '^' as int ==> StartsWithCaret(e)
  {
    match e
    case Single(c) => NoDashCharacter(p, pos, c);
    case Through(a, b) =>
      HoldsParts(p, pos, PrintCharacter(a), Ascii('-') + PrintCharacter(b));
      NoDashCharacter(p, pos, a);
    case _ => HoldsByte(p, pos, PrintElement(e), 0);
  }

  lemma NoDashCharacter(p: seq<Byte>, pos: nat, c: Character)
    requires Holds(p, pos, PrintCharacter(c))
    ensures pos < |p| && p[pos] != '-' as int && p[pos] != ']' as int
    ensures p[pos] == '^' as int ==> c == Itself('^' as int)
  {
    HoldsByte(p, pos, PrintCharacter(c), 0);
  }

  /** A range, unless its ends are inverted. */
  function RangeReading(low: Rune, high: Rune, end: nat): Reading
  {
    if low > high then Refused(ErrorBadCharRange, []) else More(Just([(low, high)]), end)
  }

  lemma ThroughRead(tables: Tables, p: seq<Byte>, pos: nat, from: Character, to: Character)
    requires Holds(p, pos, PrintCharacter(from) + (Ascii('-') + PrintCharacter(to)))
    ensures pos < |p|
    ensures ReadElement(tables, p, pos) ==
            RangeReading(CharacterValue(from), CharacterValue(to), pos + |PrintCharacter(from)| + 1 + |PrintCharacter(to)|)
  {
    HoldsParts(p, pos, PrintCharacter(from), Ascii('-') + PrintCharacter(to));
    ThroughAt(tables, p, pos, from, to, pos + |PrintCharacter(from)|);
  }

  lemma ThroughAt(tables: Tables, p: seq<Byte>, pos: nat, from: Character, to: Character, mid: nat)
    requires Holds(p, pos, PrintCharacter(from)) && mid == pos + |PrintCharacter(from)| && Holds(p, mid, Ascii('-') + PrintCharacter(to))
    ensures pos < |p|
    ensures ReadElement(tables, p, pos) == RangeReading(CharacterValue(from), CharacterValue(to), mid + 1 + |PrintCharacter(to)|)
  {
    LowRead(tables, p, pos, from);
    DashRead(p, CharacterValue(from), mid, to);
  }

  lemma DashRead(p: seq<Byte>, low: Rune, pos: nat, to: Character)
    requires Holds(p, pos, Ascii('-') + PrintCharacter(to))
    ensures pos < |p|
    ensures ReadThrough(p, low, pos) == RangeReading(low, CharacterValue(to), pos + 1 + |PrintCharacter(to)|)
  {
    AsciiAt(p, pos, '-' as int, PrintCharacter(to));
    NoDashCharacter(p, pos + 1, to);
    HighRead(p, pos + 1, to);
  }

  lemma LettersRead(tables: Tables, p: seq<Byte>, pos: nat, e: Element)
    requires e.Letters? && Holds(p, pos, PrintElement(e))
    ensures ElementReadAt(tables, p, pos, e)
  {
    var b: Byte := if e.negated then e.letter - 32 else e.letter;
    assert [b] == [b] + [];
    AsciiAt(p, pos, '\\' as int, [b]);
    AsciiAt(p, pos + 1, b, []);
  }

  lemma {:induction false} BraceFound(p: seq<Byte>, pos: nat, name: seq<Byte>, k: nat)
    requires k <= |name| && Holds(p, pos, name + Ascii('}')) && forall j :: 0 <= j < |name| ==> name[j] != '}' as int
    ensures BraceAfter(p, pos + k) == pos + |name|
    decreases |name| - k
  {
    HoldsByte(p, pos, name + Ascii('}'), k);
    if k < |name| {
      BraceFound(p, pos, name, k + 1);
    }
  }

  lemma CategoryFound(tables: Tables, p: seq<Byte>, pos: nat, name: CategoryName, negated: bool)
    requires Holds(p, pos, Ascii('{') + (name + Ascii('}')))
    ensures ReadCategory(tables, p, pos, negated) ==
            match CategorySet(tables, name, negated)
            case None => Unreadable(ErrorBadCharClass, [])
            case Some(c) => Read(c, |name| + 2, [])
  {
    AsciiAt(p, pos, '{' as int, name + Ascii('}'));
    BraceFound(p, pos + 1, name, 0);
    HoldsParts(p, pos + 1, name, Ascii('}'));
    HoldsSlice(p, pos + 1, name);
  }

  /** A category escape in front. */
  lemma CategoryElement(tables: Tables, p: seq<Byte>, pos: nat, negated: bool)
    requires pos + 1 < |p| && p[pos] == '\\' as int
    requires DecodeRune(p, pos + 1) == Decoded((if negated then 'P' else 'p') as int, 1)
    ensures ReadElement(tables, p, pos) == CategoryReading(ReadCategory(tables, p, pos + 2, negated), pos + 2)
  {
  }

  lemma ListedRead(tables: Tables, p: seq<Byte>, pos: nat, name: CategoryName, negated: bool)
    requires Holds(p, pos, PrintElement(Listed(name, negated)))
    ensures ElementReadAt(tables, p, pos, Listed(name, negated))
  {
    var b: Byte := (if negated then 'P' else 'p') as int;
    var rest := Ascii('{') + (name + Ascii('}'));
    AsciiAt(p, pos, '\\' as int, [b] + rest);
    AsciiAt(p, pos + 1, b, rest);
    CategoryFound(tables, p, pos + 2, name, negated);
    CategoryElement(tables, p, pos, negated);
  }

  lemma {:induction false} NameFound(p: seq<Byte>, pos: nat, name: seq<Byte>, rest: seq<Byte>, k: nat)
    requires k <= |name| && Holds(p, pos, name + (Ascii(':') + rest))
    requires forall j :: 0 <= j < |name| ==> 'a' as int <= name[j] <= 'z' as int
    ensures NameAfter(p, pos + k) == pos + |name|
    decreases |name| - k
  {
    HoldsByte(p, pos, name + (Ascii(':') + rest), k);
    if k < |name| {
      NameFound(p, pos, name, rest, k + 1);
    }
  }

  function FirstLetter(n: PosixName): char
  {
    match n
    case Alpha => 'a' case Digit => 'd' case Alnum => 'a' case Blank => 'b' case Space => 's' case XDigit => 'x' case Upper => 'u'
    case Lower => 'l' case Printing => 'p' case Graph => 'g' case Cntrl => 'c' case Punct => 'p' case AsciiOnly => 'a'
  }

  function ThirdLetter(n: PosixName): char
  {
    match n
    case Alpha => 'p' case Digit => 'g' case Alnum => 'n' case Blank => 'a' case Space => 'a' case XDigit => 'i' case Upper => 'p'
    case Lower => 'w' case Printing => 'i' case Graph => 'a' case Cntrl => 't' case Punct => 'n' case AsciiOnly => 'c'
  }

  /** Two letters tell the names apart. */
  lemma SpellingLetters(n: PosixName)
    ensures |Spelled(n)| > 2 && Spelled(n)[0] == FirstLetter(n) as int && Spelled(n)[2] == ThirdLetter(n) as int
  {
    assert |Spelling(n)| > 2 && Spelling(n)[0] == FirstLetter(n) && Spelling(n)[2] == ThirdLetter(n);
  }

  lemma LettersDiffer(m: PosixName, n: PosixName)
    requires FirstLetter(m) == FirstLetter(n) && ThirdLetter(m) == ThirdLetter(n)
    ensures m == n
  {
  }

  lemma {:induction false} NamedAmongFinds(ns: seq<PosixName>, n: PosixName)
    requires n in ns
    ensures NamedAmong(ns, Spelled(n)) == Some(n)
    decreases |ns|
  {
    SpellingLetters(n);
    SpellingLetters(ns[0]);
    if Spelled(n) == Spelled(ns[0]) {
      LettersDiffer(n, ns[0]);
    } else {
      NamedAmongFinds(ns[1..], n);
    }
  }

  lemma AllNamed(n: PosixName)
    ensures n in POSIX_NAMES
  {
    var k := match n
      case Alpha => 0 case Digit => 1 case Alnum => 2 case Blank => 3 case Space => 4 case XDigit => 5 case Upper => 6
      case Lower => 7 case Printing => 8 case Graph => 9 case Cntrl => 10 case Punct => 11 case AsciiOnly => 12;
    assert POSIX_NAMES[k] == n;
  }

  lemma SpelledFound(n: PosixName)
    ensures PosixNamed(Spelled(n)) == Some(n)
  {
    AllNamed(n);
    NamedAmongFinds(POSIX_NAMES, n);
  }

  lemma PosixEnds(p: seq<Byte>, pos: nat, name: seq<Byte>)
    requires Holds(p, pos, name + (Ascii(':') + Ascii(']'))) && forall j :: 0 <= j < |name| ==> 'a' as int <= name[j] <= 'z' as int
    ensures pos <= |p| && NameAfter(p, pos) == pos + |name| && p[pos..pos + |name|] == name
    ensures At(p, pos + |name|, ':') && At(p, pos + |name| + 1, ']')
  {
    HoldsParts(p, pos, name, Ascii(':') + Ascii(']'));
    NameFound(p, pos, name, Ascii(']'), 0);
    AsciiAt(p, pos + |name|, ':' as int, Ascii(']'));
    HoldsByte(p, pos + |name| + 1, Ascii(']'), 0);
    HoldsSlice(p, pos, name);
  }

  lemma PosixFound(p: seq<Byte>, pos: nat, name: seq<Byte>, n: PosixName)
    requires pos <= |p| && NameAfter(p, pos) == pos + |name| && p[pos..pos + |name|] == name
    requires At(p, pos + |name|, ':') && At(p, pos + |name| + 1, ']')
    requires PosixNamed(name) == Some(n)
    ensures ReadPosix(p, pos) == More(Just(PosixRanges(n)), pos + |name| + 2)
  {
  }

  lemma PosixRead(tables: Tables, p: seq<Byte>, pos: nat, e: Element)
    requires e.Posix? && Holds(p, pos, PrintElement(e))
    ensures ElementReadAt(tables, p, pos, e)
  {
    var rest := Spelled(e.posix) + (Ascii(':') + Ascii(']'));
    AsciiAt(p, pos, '[' as int, Ascii(':') + rest);
    AsciiAt(p, pos + 1, ':' as int, rest);
    SpelledFound(e.posix);
    PosixEnds(p, pos + 2, Spelled(e.posix));
    PosixFound(p, pos + 2, Spelled(e.posix), e.posix);
  }

  /** The element at `pos` is read as what it stands for. */
  ghost predicate ElementReadAt(tables: Tables, p: seq<Byte>, pos: nat, e: Element)
  {
    pos < |p| && ReadElement(tables, p, pos) == ReadingOf(ElementResult(tables, e), pos + |PrintElement(e)|)
  }

  function ReadingOf(r: Result, pos: nat): Reading
  {
    match r
    case Brings(haul) => More(haul, pos)
    case Fault(e, labels) => Refused(e, labels)
  }

  lemma SingleRead(tables: Tables, p: seq<Byte>, pos: nat, c: Character, next: nat)
    requires Holds(p, pos, PrintCharacter(c)) && next == pos + |PrintCharacter(c)| && !DashAt(p, next)
    ensures pos < |p| && ReadElement(tables, p, pos) == More(Just([(CharacterValue(c), CharacterValue(c))]), next)
  {
    LowRead(tables, p, pos, c);
  }

  /** An element is read back where no dash turns it into the start of a range. */
  lemma ElementRead(tables: Tables, p: seq<Byte>, pos: nat, e: Element)
    requires Holds(p, pos, PrintElement(e)) && !DashAt(p, pos + |PrintElement(e)|)
    ensures ElementReadAt(tables, p, pos, e)
  {
    match e
    case Single(c) => SingleRead(tables, p, pos, c, pos + |PrintElement(e)|);
    case Through(a, b) => ThroughRead(tables, p, pos, a, b);
    case Letters(_, _) => LettersRead(tables, p, pos, e);
    case Posix(_) => PosixRead(tables, p, pos, e);
    case Listed(name, negated) => ListedRead(tables, p, pos, name, negated);
  }

  /** A dash before the closing bracket starts no range. */
  lemma EndFollows(p: seq<Byte>, pos: nat, lastDash: bool)
    requires Holds(p, pos, (if lastDash then Ascii('-') else []) + Ascii(']'))
    ensures !DashAt(p, pos) && pos < |p|
    ensures if lastDash then pos + 1 < |p| && p[pos] == '-' as int && p[pos + 1] == ']' as int else p[pos] == ']' as int
  {
    if lastDash {
      AsciiAt(p, pos, '-' as int, Ascii(']'));
      HoldsByte(p, pos + 1, Ascii(']'), 0);
    } else {
      assert [] + Ascii(']') == Ascii(']');
      HoldsByte(p, pos, Ascii(']'), 0);
    }
  }

  lemma {:induction false} EndRead(tables: Tables, p: seq<Byte>, pos: nat, x: Expression, had: Haul)
    requires Holds(p, pos, PrintEnd(x))
    ensures pos < |p|
    ensures ReadElements(tables, p, pos, had) == More(Haul(had.ranges + LastRanges(x.lastDash), had.labels), pos + |PrintEnd(x)|)
  {
    EndFollows(p, pos, x.lastDash);
    if x.lastDash {
      assert DecodeRune(p, pos) == Decoded('-' as int, 1);
      assert ReadElement(tables, p, pos) == More(DASH, pos + 1);
      assert had.Plus(DASH) == Haul(had.ranges + DASH.ranges, had.labels);
      assert ReadElements(tables, p, pos + 1, had.Plus(DASH)) == More(had.Plus(DASH), pos + 2);
    } else {
      assert had.ranges + [] == had.ranges;
    }
  }

  lemma NextFollows(p: seq<Byte>, pos: nat, es: Elements, x: Expression)
    requires Holds(p, pos, PrintElements(es, PrintEnd(x)))
    ensures !DashAt(p, pos) && pos < |p|
  {
    if es.NoMore? {
      EndFollows(p, pos, x.lastDash);
    } else {
      HoldsParts(p, pos, PrintElement(es.head), PrintElements(es.tail, PrintEnd(x)));
      NoDashFirst(p, pos, es.head);
    }
  }

  ghost predicate ElementsReadAt(tables: Tables, p: seq<Byte>, pos: nat, es: Elements, lastDash: bool, had: Haul, end: nat)
  {
    && pos < |p|
    && ReadElements(tables, p, pos, had) ==
       match ElementsResult(tables, es, had)
       case Fault(e, labels) => Refused(e, labels)
       case Brings(haul) => More(Haul(haul.ranges + LastRanges(lastDash), haul.labels), end)
  }

  lemma {:induction false} NoneRead(tables: Tables, p: seq<Byte>, pos: nat, es: Elements, x: Expression, had: Haul, end: nat)
    requires es.NoMore? && Holds(p, pos, PrintElements(es, PrintEnd(x))) && end == pos + |PrintElements(es, PrintEnd(x))|
    ensures ElementsReadAt(tables, p, pos, es, x.lastDash, had, end)
  {
    EndRead(tables, p, pos, x, had);
  }

  /** The element at the front is read, and the others follow. */
  lemma {:induction false} HeadRead(tables: Tables, p: seq<Byte>, pos: nat, es: Elements, x: Expression) returns (next: nat)
    requires es.Then? && Holds(p, pos, PrintElements(es, PrintEnd(x)))
    ensures pos < |p| && p[pos] != ']' as int
    ensures ReadElement(tables, p, pos) == ReadingOf(ElementResult(tables, es.head), next)
    ensures Holds(p, next, PrintElements(es.tail, PrintEnd(x)))
    ensures next + |PrintElements(es.tail, PrintEnd(x))| == pos + |PrintElements(es, PrintEnd(x))|
  {
    var text, rest := PrintElement(es.head), PrintElements(es.tail, PrintEnd(x));
    HoldsParts(p, pos, text, rest);
    NoDashFirst(p, pos, es.head);
    next := pos + |text|;
    NextFollows(p, next, es.tail, x);
    ElementRead(tables, p, pos, es.head);
  }

  lemma {:induction false} ElementsRead(tables: Tables, p: seq<Byte>, pos: nat, es: Elements, x: Expression, had: Haul, end: nat)
    requires Holds(p, pos, PrintElements(es, PrintEnd(x))) && end == pos + |PrintElements(es, PrintEnd(x))|
    ensures ElementsReadAt(tables, p, pos, es, x.lastDash, had, end)
    decreases es
  {
    if es.NoMore? {
      NoneRead(tables, p, pos, es, x, had, end);
    } else {
      var next := HeadRead(tables, p, pos, es, x);
      if ElementResult(tables, es.head).Brings? {
        ElementsRead(tables, p, next, es.tail, x, had.Plus(ElementResult(tables, es.head).haul), end);
      }
      ElementsStep(tables, p, pos, es, x.lastDash, had, next, end);
    }
  }

  lemma {:induction false} ElementsStep(tables: Tables, p: seq<Byte>, pos: nat, es: Elements, lastDash: bool, had: Haul, next: nat, end: nat)
    requires pos < |p| && p[pos] != ']' as int && es.Then?
    requires ReadElement(tables, p, pos) == ReadingOf(ElementResult(tables, es.head), next)
    requires ElementResult(tables, es.head).Brings? ==>
               ElementsReadAt(tables, p, next, es.tail, lastDash, had.Plus(ElementResult(tables, es.head).haul), end)
    ensures ElementsReadAt(tables, p, pos, es, lastDash, had, end)
  {
  }

  /** A leading dash stands for itself. */
  lemma {:induction false} ContentsRead(tables: Tables, p: seq<Byte>, pos: nat, x: Expression, end: nat)
    requires Holds(p, pos, (if x.dash then Ascii('-') else []) + PrintElements(x.elements, PrintEnd(x)))
    requires end == pos + |(if x.dash then Ascii('-') else []) + PrintElements(x.elements, PrintEnd(x))|
    ensures pos < |p|
    ensures ReadElements(tables, p, pos, NOTHING) ==
            match ElementsResult(tables, x.elements, FirstHaul(x))
            case Fault(e, labels) => Refused(e, labels)
            case Brings(haul) => More(Haul(haul.ranges + LastRanges(x.lastDash), haul.labels), end)
  {
    var rest := PrintElements(x.elements, PrintEnd(x));
    if x.dash {
      AsciiAt(p, pos, '-' as int, rest);
      NextFollows(p, pos + 1, x.elements, x);
      assert ReadElement(tables, p, pos) == More(DASH, pos + 1);
      assert NOTHING.Plus(DASH) == DASH;
      ElementsRead(tables, p, pos + 1, x.elements, x, DASH, end);
    } else {
      assert [] + rest == rest;
      ElementsRead(tables, p, pos, x.elements, x, NOTHING, end);
    }
  }

  /** The first byte after the caret position is neither a caret nor a closing bracket. */
  lemma {:induction false} ContentsFollow(p: seq<Byte>, pos: nat, x: Expression)
    requires Holds(p, pos, (if x.dash then Ascii('-') else []) + PrintElements(x.elements, PrintEnd(x))) && x.Proper()
    ensures pos < |p| && p[pos] != ']' as int && (!x.negated ==> p[pos] != '^' as int)
  {
    var rest := PrintElements(x.elements, PrintEnd(x));
    if x.dash {
      AsciiAt(p, pos, '-' as int, rest);
    } else {
      assert [] + rest == rest;
      if x.elements.Then? {
        HoldsParts(p, pos, PrintElement(x.elements.head), PrintElements(x.elements.tail, PrintEnd(x)));
        NoDashFirst(p, pos, x.elements.head);
      } else {
        EndFollows(p, pos, x.lastDash);
      }
    }
  }

  /** Wherever a bracket expression is written, it is read as its class, or refused for its first fault. */
  lemma {:induction false} BracketRead(tables: Tables, p: seq<Byte>, pos: nat, x: Expression)
    requires Holds(p, pos, PrintBracket(x)) && x.Proper()
    ensures ReadBracket(tables, p, pos) == ExpressionRead(tables, x, |PrintBracket(x)|)
  {
    var rest := (if x.dash then Ascii('-') else []) + PrintElements(x.elements, PrintEnd(x));
    var start := if x.negated then pos + 1 else pos;
    if x.negated {
      AsciiAt(p, pos, '^' as int, rest);
    } else {
      assert [] + rest == rest;
    }
    ContentsFollow(p, start, x);
    ContentsRead(tables, p, start, x, start + |rest|);
  }

  // ---------------------------------------------------------------------
  // Patterns with bracket expressions
  // ---------------------------------------------------------------------

  /** The item for a written expression. */
  function BracketItem(tables: Tables, x: Expression): Item
    requires Sensible(tables, x.elements)
  {
    ReadIffSensible(tables, x.elements, FirstHaul(x));
    var r := ExpressionRead(tables, x, 0);
    Bracket(PrintBracket(x), r.class_, r.inner)
  }

  /** The scanner reads a sensible expression as its item. */
  lemma {:induction false} BracketItemRead(tables: Tables, x: Expression)
    requires x.Proper() && Sensible(tables, x.elements)
    ensures ItemReadable(ReadersOver(tables), BracketItem(tables, x))
  {
    var i := BracketItem(tables, x);
    forall p: seq<Byte>, pos: nat | pos <= |p| && Holds(p, pos, i.text)
      ensures ReadersOver(tables).bracket(p, pos) == Read(i.class_, |i.text|, i.inner)
    {
      ReadIffSensible(tables, x.elements, FirstHaul(x));
      BracketRead(tables, p, pos, x);
    }
  }

  /** The item of a sensible expression matches exactly the runes that the expression describes. */
  lemma {:induction false} BracketItemMeans(tables: Tables, x: Expression, t: Subject, a: nat, b: nat)
    requires Tabled(tables) && Sensible(tables, x.elements)
    ensures ItemMeans(BracketItem(tables, x), t, a, b) <==> ReadsOne(t, a, b) && Describes(tables, x, t.runes[a])
  {
    if ReadsOne(t, a, b) {
      ExpressionMeaning(tables, x, 0, t.runes[a]);
    }
  }

  /** The item for a category escape outside brackets. */
  function CategoryItem(tables: Tables, name: CategoryName, negated: bool): Item
    requires tables(name).Some?
  {
    Category(Ascii('{') + (name + Ascii('}')), negated, CategoryClass(tables(name).value, negated))
  }

  lemma {:induction false} CategoryItemRead(tables: Tables, name: CategoryName, negated: bool)
    requires tables(name).Some?
    ensures ItemReadable(ReadersOver(tables), CategoryItem(tables, name, negated))
  {
    var i := CategoryItem(tables, name, negated);
    forall p: seq<Byte>, pos: nat | pos <= |p| && Holds(p, pos, i.name)
      ensures ReadCategory(tables, p, pos, negated) == Read(i.class_, |i.name|, [])
    {
      CategoryFound(tables, p, pos, name, negated);
    }
  }

  /** The item of a category matches exactly the category's runes, or the scalar values outside it. */
  lemma {:induction false} CategoryItemMeans(tables: Tables, name: CategoryName, negated: bool, t: Subject, a: nat, b: nat)
    requires Tabled(tables) && tables(name).Some?
    ensures ItemMeans(CategoryItem(tables, name, negated), t, a, b) <==>
            ReadsOne(t, a, b) && CategoryMember(tables(name).value, negated, t.runes[a])
  {
    if ReadsOne(t, a, b) {
      CategoryMeaning(tables(name).value, negated, t.runes[a]);
    }
  }

  /** Every bracket expression in the pattern is a sensible one, and every category is known. */
  ghost predicate ItemWritten(tables: Tables, i: Item)
  {
    match i
    case Bracket(_, _, _) => exists x: Expression :: x.Proper() && Sensible(tables, x.elements) && i == BracketItem(tables, x)
    case Category(_, negated, _) => exists name: CategoryName :: tables(name).Some? && i == CategoryItem(tables, name, negated)
    case Grouped(_, body) => Written(tables, body)
    case _ => true
  }

  ghost predicate BranchWritten(tables: Tables, b: Branch)
  {
    b.Append? ==> BranchWritten(tables, b.front) && ItemWritten(tables, b.piece.item)
  }

  ghost predicate Written(tables: Tables, x: Pattern)
  {
    match x
    case Only(b) => BranchWritten(tables, b)
    case Or(front, last) => Written(tables, front) && BranchWritten(tables, last)
  }

  lemma {:induction false} ItemIsRead(tables: Tables, i: Item)
    requires Tabled(tables) && ItemWritten(tables, i)
    ensures ItemReadable(ReadersOver(tables), i)
  {
    match i
    case Category(_, negated, _) =>
      var name: CategoryName :| tables(name).Some? && i == CategoryItem(tables, name, negated);
      CategoryItemRead(tables, name, negated);
    case Bracket(_, _, _) =>
      var x: Expression :| x.Proper() && Sensible(tables, x.elements) && i == BracketItem(tables, x);
      BracketItemRead(tables, x);
    case Grouped(_, body) => WrittenIsRead(tables, body);
    case _ =>
  }

  lemma {:induction false} BranchIsRead(tables: Tables, b: Branch)
    requires Tabled(tables) && BranchWritten(tables, b)
    ensures BranchReadable(ReadersOver(tables), b)
  {
    if b.Append? {
      BranchIsRead(tables, b.front);
      ItemIsRead(tables, b.piece.item);
    }
  }

  /** With the readers above, the scanner reads every such pattern as it is meant. */
  lemma {:induction false} WrittenIsRead(tables: Tables, x: Pattern)
    requires Tabled(tables) && Written(tables, x)
    ensures Readable(ReadersOver(tables), x)
  {
    match x
    case Only(b) => BranchIsRead(tables, b);
    case Or(front, last) =>
      WrittenIsRead(tables, front);
      BranchIsRead(tables, last);
  }

  // ---------------------------------------------------------------------
  // The loops
  // ---------------------------------------------------------------------

  method ParseUnicodeCategory(tables: Tables, p: seq<Byte>, pos: nat, negated: bool) returns (r: ClassRead)
    requires Tabled(tables)
    ensures r == ReadCategory(tables, p, pos, negated)
  {
    if pos >= |p| || p[pos] != '{' as int {
      return Unreadable(ErrorBadCharClass, []);
    }
    var e := pos + 1;
    while e < |p| && p[e] != '}' as int
      invariant pos < e <= |p| && BraceAfter(p, pos + 1) == BraceAfter(p, e)
    {
      e := e + 1;
    }
    if e >= |p| {
      return Unreadable(ErrorBadCharClass, []);
    }
    var name := p[pos + 1..e];
    if name == [] || |name| > 3 || tables(name).None? {
      return Unreadable(ErrorBadCharClass, []);
    }
    var c := Finalize(tables(name).value);
    if negated {
      FinalizedRight(tables(name).value);
      c := Complement(c.ranges);
    }
    r := Read(c, e + 1 - pos, []);
  }

  method ParsePosixClass(p: seq<Byte>, pos: nat) returns (r: Reading)
    requires pos <= |p|
    ensures r == ReadPosix(p, pos)
  {
    var e := pos;
    while e < |p| && p[e] != ':' as int && p[e] != ']' as int
      invariant pos <= e <= |p| && NameAfter(p, pos) == NameAfter(p, e)
    {
      e := e + 1;
    }
    if e + 1 >= |p| || p[e] != ':' as int || p[e + 1] != ']' as int {
      return Refused(ErrorBadCharClass, []);
    }
    match PosixNamed(p[pos..e])
    case None => r := Refused(ErrorBadCharClass, []);
    case Some(n) => r := More(Just(PosixRanges(n)), e + 2);
  }

  /** The escapes that stand for sets; `pos` is the position after the letter `r`. */
  method ParseEscapedSet(tables: Tables, p: seq<Byte>, pos: nat, r: Rune) returns (found: Option<Reading>)
    requires Tabled(tables) && pos <= |p|
    ensures found == EscapedSet(tables, p, pos, r)
  {
    if r == 'p' as int || r == 'P' as int {
      var category := ParseUnicodeCategory(tables, p, pos, r == 'P' as int);
      return Some(CategoryReading(category, pos));
    }
    var lower := if 'A' as int <= r <= 'Z' as int then r + 32 else r;
    if IsShorthand(lower) {
      var c := ShorthandClass(lower, r != lower);
      return Some(More(Just(c.ranges), pos));
    }
    found := None;
  }

  method ParseEscape(tables: Tables, p: seq<Byte>, pos: nat) returns (r: Reading)
    requires Tabled(tables) && pos <= |p|
    ensures r == ReadEscape(tables, p, pos)
  {
    if pos == |p| {
      return Refused(ErrorTrailingBackslash, []);
    }
    var d := DecodeRune(p, pos);
    var next := pos + d.width;
    var found := ParseEscapedSet(tables, p, next, d.rune);
    if found.Some? {
      return found.value;
    }
    match ReadEscaped(p, next, d.rune)
    case NotOne(e) => r := Refused(e, []);
    case One(low, q) => r := ReadThrough(p, low, q);
  }

  method ParseElement(tables: Tables, p: seq<Byte>, pos: nat) returns (r: Reading)
    requires Tabled(tables) && pos < |p|
    ensures r == ReadElement(tables, p, pos)
  {
    if p[pos] == '[' as int && At(p, pos + 1, ':') {
      r := ParsePosixClass(p, pos + 2);
    } else if p[pos] == '\\' as int {
      r := ParseEscape(tables, p, pos + 1);
    } else {
      var d := DecodeRune(p, pos);
      r := ReadThrough(p, d.rune, pos + d.width);
    }
  }

  /** Reads a bracket expression after its opening bracket and builds its class. */
  method ParseCharClass(tables: Tables, p: seq<Byte>, start: nat) returns (r: ClassRead)
    requires Tabled(tables)
    ensures r == ReadBracket(tables, p, start)
  {
    var negated := At(p, start, '^');
    var pos := if negated then start + 1 else start;
    if pos >= |p| || p[pos] == ']' as int {
      return Unreadable(ErrorMissingBracket, []);
    }
    ghost var first := pos;
    var had := NOTHING;
    while pos < |p| && p[pos] != ']' as int
      invariant first <= pos <= |p|
      invariant ReadElements(tables, p, first, NOTHING) == ReadElements(tables, p, pos, had)
    {
      var element := ParseElement(tables, p, pos);
      if element.Refused? {
        return Unreadable(element.error, had.labels + element.labels);
      }
      had := had.Plus(element.haul);
      pos := element.pos;
    }
    if pos >= |p| {
      return Unreadable(ErrorMissingBracket, had.labels);
    }
    ElementsNearly(tables, p, first, NOTHING);
    var c := Finalize(had.ranges);
    if negated {
      FinalizedRight(had.ranges);
      c := Complement(c.ranges);
    }
    r := Read(c, pos + 1 - start, had.labels);
  }
}
