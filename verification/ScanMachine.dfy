// The pattern scanner as a state machine: what PostfixBuilder in
// regex_engine.h computes, with its operator stack read as a stack of open
// groups, each with the branch and the atom being scanned.

module ScanMachine {
  import opened Options
  import opened Utf8
  import opened RuneClasses
  import opened RegexSemantics
  import opened Postfix
  import opened Repetition

  const MAX_REPETITION: nat := 1000
  const MAX_POSTFIX_SIZE: nat := 100000
  const MAX_GROUP_NESTING: nat := 256
  const MAX_CLASS_INDEX: nat := 0xFFFF

  // ---------------------------------------------------------------------
  // Scanner state
  // ---------------------------------------------------------------------

  /**
   * One open group: the finished alternatives, the flushed pieces of the
   * current branch, and the atom that a quantifier could still apply to.
   */
  datatype Frame = Frame(alternatives: Option<seq<Token>>, before: seq<Token>, live: bool, atom: Option<seq<Token>>, quantified: bool)
  {
    /** An operand of this branch is complete, so the next one needs a catenation. */
    predicate NeedConcat() { live || atom.Some? }

    /** A branch without pieces has no tokens; where an atom was removed, nothing can be quantified. */
    predicate Ok() { (!live ==> before == []) && (live && atom.None? ==> quantified) }

    function Branch(): seq<Token>
    {
      match atom
      case None => before
      case Some(a) => before + a + if live then [Catenation] else []
    }

    function Tokens(): seq<Token>
    {
      match alternatives
      case None => Branch()
      case Some(p) => p + Branch() + [Alternation]
    }

    /** The pending catenation is emitted and a new piece begins. */
    function Begin(): Frame
    {
      Frame(alternatives, Branch(), NeedConcat(), None, quantified)
    }

    function Finished(): seq<Token>
    {
      if alternatives.Some? then alternatives.value else []
    }
  }

  const FRESH: Frame := Frame(None, [], false, None, false)

  /** The groups around the innermost one; `id` is the capture number of the group opened inside `frame`. */
  datatype Outer = Root | Within(outer: Outer, frame: Frame, id: Option<nat>)

  function Depth(o: Outer): nat
  {
    if o.Root? then 0 else Depth(o.outer) + 1
  }

  /** Tokens already in place before the innermost group. */
  function Placed(o: Outer): seq<Token>
  {
    match o
    case Root => []
    case Within(o', f, _) => Placed(o') + (f.Finished() + f.before)
  }

  /** What a class reference stands for. */
  datatype ClassSpec = AnyRune | Shorthand(letter: Byte, negated: bool) | Given(class_: RuneClass)

  function Givens(cs: seq<RuneClass>): (specs: seq<ClassSpec>)
    ensures |specs| == |cs|
  {
    seq(|cs|, i requires 0 <= i < |cs| => Given(cs[i]))
  }

  datatype Scan = Scan(frame: Frame, outer: Outer, captures: nat, classes: seq<ClassSpec>, escaped: bool, classOverflow: bool)
  {
    function AtomStart(): nat { |Placed(outer)| + |frame.Finished()| + |frame.before| }

    function Atom(tokens: seq<Token>): Scan
    {
      this.(frame := frame.Begin().(atom := Some(tokens), quantified := false))
    }

    function Leaf(tag: Operand): Scan { Atom([Token.Atom(tag)]) }

    /** A reference past the last class label falls back to the first class and records an error. */
    function ClassAtom(spec: ClassSpec): Scan
    {
      if |classes| > MAX_CLASS_INDEX then this.(classOverflow := true).Leaf(Class(0))
      else this.(classes := classes + [spec]).Leaf(Class(|classes|))
    }

    /** A class that was read, after the classes of the categories inside it; one label too many is an error. */
    function ReadAtom(inner: seq<RuneClass>, c: RuneClass): Outcome
    {
      if classOverflow || |classes| + |inner| > MAX_CLASS_INDEX then Fails(ErrorPatternTooLarge)
      else Fine(this.(classes := classes + Givens(inner)).ClassAtom(Given(c)))
    }

    function Bar(): Scan
    {
      this.(frame := Frame(Some(frame.Tokens()), [], false, None, false))
    }

    /** The first recorded error is the one that is reported. */
    function Reported(error: ErrorCode): ErrorCode
    {
      if classOverflow then ErrorPatternTooLarge else error
    }

    function Fail(error: ErrorCode): Outcome { Fails(Reported(error)) }

    function Open(capturing: bool): Outcome
    {
      if capturing && captures + 1 > MAX_CAPTURES then Fail(ErrorTooManyCaptures)
      else if Depth(outer) >= MAX_GROUP_NESTING then Fail(ErrorNestingTooDeep)
      else
        Fine(this.(frame := FRESH,
                   outer := Within(outer, frame.Begin(), if capturing then Some(captures) else None),
                   captures := if capturing then captures + 1 else captures))
    }

    function Close(): Outcome
    {
      match outer
      case Root => Fail(ErrorUnexpectedParen)
      case Within(o, f, id) =>
        Fine(this.(frame := f.(atom := Some(frame.Tokens() + if id.Some? then [CaptureGroup(id.value)] else []), quantified := false),
                   outer := o))
    }

    /** A quantifier; after one that was given a reference too far, the recorded error shows. */
    function Quantify(kind: RepeatKind, lazy: bool): Outcome
    {
      if !frame.NeedConcat() || frame.quantified || frame.atom.None? then Fail(ErrorRepeatOp)
      else if classOverflow then Fails(ErrorPatternTooLarge)
      else Fine(this.(frame := frame.(atom := Some(frame.atom.value + [Quantifier(kind, lazy)]), quantified := true)))
    }

    /** A counted repetition of the current atom. */
    function Repeat(b: Bounds): Outcome
    {
      if frame.quantified || frame.atom.None? then Fail(ErrorRepeatOp)
      else if b.min > MAX_REPETITION || (b.max.Some? && b.max.value > MAX_REPETITION) || !b.Ordered() then Fail(ErrorRepeatSize)
      else
        var copies := if b.max.Some? then b.max.value else b.min + 1;
        if AtomStart() + copies * (|frame.atom.value| + 2) > MAX_POSTFIX_SIZE then Fail(ErrorPatternTooLarge)
        else if b.Removes() then Fine(this.(frame := frame.(atom := None, quantified := true)))
        else
          var expanded := Expansion(frame.atom.value, b);
          if AtomStart() + |expanded| > MAX_POSTFIX_SIZE then Fail(ErrorPatternTooLarge)
          else Fine(this.(frame := frame.(atom := Some(expanded), quantified := true)))
    }
  }

  datatype Outcome = Fine(scan: Scan) | Fails(error: ErrorCode)

  const START: Scan := Scan(FRESH, Root, 0, [], false, false)

  // ---------------------------------------------------------------------
  // Reading the pattern
  // ---------------------------------------------------------------------

  /**
   * What reading a bracket expression or a category name yields: a class and
   * its width in bytes, or an error. The classes of categories inside the
   * brackets have taken labels before.
   */
  datatype ClassRead = Read(class_: RuneClass, width: nat, inner: seq<RuneClass>) | Unreadable(error: ErrorCode, inner: seq<RuneClass>)

  type ClassReader = (seq<Byte>, nat) -> ClassRead

  /** A reader stays inside the pattern and yields classes that are ready for matching. */
  ghost predicate Sane(read: ClassReader)
  {
    forall p: seq<Byte>, pos: nat :: pos <= |p| ==>
      var r := read(p, pos);
      && (forall j :: 0 <= j < |r.inner| ==> r.inner[j].Ready())
      && match r
         case Read(c, width, _) => pos + width <= |p| && c.Ready()
         case Unreadable(e, _) => e != NoError
  }

  /** The readers of bracket expressions and of the two category escapes. */
  datatype Readers = Readers(bracket: ClassReader, category: ClassReader, complement: ClassReader)
  {
    ghost predicate Sound() { Sane(bracket) && Sane(category) && Sane(complement) }
  }

  predicate At(p: seq<Byte>, pos: nat, c: char)
  {
    pos < |p| && p[pos] == c as int
  }

  predicate DigitAt(p: seq<Byte>, pos: nat)
  {
    pos < |p| && '0' as int <= p[pos] <= '9' as int
  }

  /** A run of decimal digits, accumulated in a machine word, and where it ends. */
  function Number(p: seq<Byte>, pos: nat, acc: nat): (r: (nat, nat))
    requires pos <= |p|
    ensures pos <= r.1 <= |p| && !DigitAt(p, r.1)
    decreases |p| - pos
  {
    if DigitAt(p, pos) then Number(p, pos + 1, (acc * 10 + (p[pos] - '0' as int)) % SIZE_MODULUS) else (acc, pos)
  }

  /** The bounds of a counted repetition, read after its opening brace, and where the pattern continues. */
  function ReadBounds(p: seq<Byte>, pos: nat): (r: Option<(Bounds, nat)>)
    requires pos <= |p|
    ensures r.Some? ==> pos < r.value.1 <= |p|
  {
    if !DigitAt(p, pos) then None
    else
      var (n, q) := Number(p, pos, 0);
      var (b, e) :=
        if At(p, q, ',') then
          if DigitAt(p, q + 1) then var (m, e) := Number(p, q + 1, 0); (Bounds(n, Some(m)), e)
          else (Bounds(n, None), q + 1)
        else (Bounds(n, Some(n)), q);
      if At(p, e, '}') then Some((b, e + 1)) else None
  }

  function HexDigit(b: Byte): (v: Option<nat>)
    ensures v.Some? ==> v.value < 16
  {
    if '0' as int <= b <= '9' as int then Some(b - '0' as int)
    else if 'a' as int <= b <= 'f' as int then Some(b - 'a' as int + 10)
    else if 'A' as int <= b <= 'F' as int then Some(b - 'A' as int + 10)
    else None
  }

  function ReadHex(p: seq<Byte>, pos: nat): Option<nat>
  {
    if pos + 1 < |p| && HexDigit(p[pos]).Some? && HexDigit(p[pos + 1]).Some? then
      Some(HexDigit(p[pos]).value * 16 + HexDigit(p[pos + 1]).value)
    else None
  }

  predicate IsPunctuation(r: Rune)
  {
    0x21 <= r <= 0x7E && !('0' as int <= r <= '9' as int) && !('A' as int <= r <= 'Z' as int) && !('a' as int <= r <= 'z' as int)
  }

  predicate IsShorthand(letter: Rune)
  {
    letter == 'd' as int || letter == 's' as int || letter == 'w' as int
  }

  /** The state after a step, and the position the pattern continues at. */
  datatype Step = To(pos: nat, scan: Scan) | Stop(error: ErrorCode)

  function Go(o: Outcome, pos: nat): Step
  {
    match o
    case Fine(s) => To(pos, s)
    case Fails(e) => Stop(e)
  }

  /** A class that was read; an error recorded earlier shows here. */
  function ReadClass(s: Scan, r: ClassRead, pos: nat): Step
  {
    match r
    case Unreadable(e, inner) => Stop(if inner != [] && |s.classes| + |inner| > MAX_CLASS_INDEX + 1 then ErrorPatternTooLarge else s.Reported(e))
    case Read(c, width, inner) => Go(s.ReadAtom(inner, c), pos + width)
  }

  /** The rune that a single escaped character stands for. */
  function EscapeValue(r: Rune): Option<Rune>
  {
    if r == 'n' as int then Some(10)
    else if r == 'r' as int then Some(13)
    else if r == 't' as int then Some(9)
    else if IsPunctuation(r) then Some(r)
    else None
  }

  /** The character after a backslash; `pos` is the position after it. */
  function Escape(readers: Readers, p: seq<Byte>, pos: nat, r: Rune, s: Scan): Step
  {
    if r == 'p' as int then ReadClass(s, readers.category(p, pos), pos)
    else if r == 'P' as int then ReadClass(s, readers.complement(p, pos), pos)
    else if IsShorthand(r) then To(pos, s.ClassAtom(Shorthand(r, false)))
    else if 'A' as int <= r <= 'Z' as int && IsShorthand(r + 32) then To(pos, s.ClassAtom(Shorthand(r + 32, true)))
    else if r == 'x' as int then
      match ReadHex(p, pos) {
        case None => Go(s.Fail(ErrorBadEscape), pos)
        case Some(v) => To(pos + 2, s.Leaf(Lit(v)))
      }
    else if r == 'b' as int then To(pos, s.Leaf(WordBoundary))
    else
      match EscapeValue(r)
      case Some(v) => To(pos, s.Leaf(Lit(v)))
      case None => Go(s.Fail(ErrorBadEscape), pos)
  }

  /** A closing bracket or a brace without an atom before it stands for itself. */
  function Closer(r: Rune, s: Scan, pos: nat): Step
  {
    if !s.frame.NeedConcat() then To(pos, s.Leaf(Lit(r))) else Go(s.Fail(ErrorStrictSyntax), pos)
  }

  const BACKSLASH: Rune := '\\' as int

  /** An opening brace: a literal after nothing or after an escaped backslash, a repetition otherwise. */
  function Brace(p: seq<Byte>, pos: nat, s: Scan): Step
    requires pos <= |p|
  {
    if !s.frame.NeedConcat() || (!DigitAt(p, pos) && s.frame.atom == Some([Token.Atom(Lit(BACKSLASH))])) then
      To(pos, s.Leaf(Lit('{' as int)))
    else if s.frame.quantified then Go(s.Fail(ErrorRepeatOp), pos)
    else
      match ReadBounds(p, pos)
      case None => Go(s.Fail(ErrorRepeatOp), pos)
      case Some((b, e)) => Go(s.Repeat(b), e)
  }

  /** A quantifier sign, lazy if a question mark follows. */
  function QuantifierSign(kind: RepeatKind, p: seq<Byte>, pos: nat, s: Scan): Step
  {
    var lazy := At(p, pos, '?');
    Go(s.Quantify(kind, lazy), if lazy then pos + 1 else pos)
  }

  /** A rune that is neither escaped nor a backslash; `pos` is the position after it. */
  function PlainStep(readers: Readers, p: seq<Byte>, pos: nat, r: Rune, s: Scan): Step
    requires pos <= |p|
  {
    if r == '.' as int then To(pos, s.ClassAtom(AnyRune))
    else if r == '[' as int then ReadClass(s, readers.bracket(p, pos), pos)
    else if r == '^' as int then To(pos, s.Leaf(StartAnchor))
    else if r == '$' as int then To(pos, s.Leaf(EndAnchor))
    else if r == ']' as int || r == '}' as int then Closer(r, s, pos)
    else if r == '{' as int then Brace(p, pos, s)
    else if r == '(' as int then
      if At(p, pos, '?') && At(p, pos + 1, ':') then Go(s.Open(false), pos + 2) else Go(s.Open(true), pos)
    else if r == ')' as int then Go(s.Close(), pos)
    else if r == '|' as int then To(pos, s.Bar())
    else if r == '*' as int then QuantifierSign(ZeroOrMore, p, pos, s)
    else if r == '?' as int then QuantifierSign(ZeroOrOne, p, pos, s)
    else if r == '+' as int then QuantifierSign(OneOrMore, p, pos, s)
    else To(pos, s.Leaf(Lit(r)))
  }

  /** One step of the scanner: the rune at `pos` and what belongs to it. */
  function StepAt(readers: Readers, p: seq<Byte>, pos: nat, s: Scan): Step
    requires pos < |p|
  {
    var d := DecodeRune(p, pos);
    if s.escaped then Escape(readers, p, pos + d.width, d.rune, s.(escaped := false))
    else if d.rune == BACKSLASH then To(pos + d.width, s.(escaped := true))
    else PlainStep(readers, p, pos + d.width, d.rune, s)
  }

  lemma EscapeMoves(readers: Readers, p: seq<Byte>, pos: nat, r: Rune, s: Scan)
    requires pos <= |p| && readers.Sound()
    ensures var step := Escape(readers, p, pos, r, s); step.To? ==> pos <= step.pos <= |p|
  {
  }

  lemma PlainMoves(readers: Readers, p: seq<Byte>, pos: nat, r: Rune, s: Scan)
    requires pos <= |p| && readers.Sound()
    ensures var step := PlainStep(readers, p, pos, r, s); step.To? ==> pos <= step.pos <= |p|
  {
  }

  /** A step moves on and stays in the pattern. */
  lemma {:induction false} StepMoves(readers: Readers, p: seq<Byte>, pos: nat, s: Scan)
    requires pos < |p| && readers.Sound()
    ensures var step := StepAt(readers, p, pos, s); step.To? ==> pos < step.pos <= |p|
  {
    var d := DecodeRune(p, pos);
    if s.escaped {
      EscapeMoves(readers, p, pos + d.width, d.rune, s.(escaped := false));
    } else if d.rune != BACKSLASH {
      PlainMoves(readers, p, pos + d.width, d.rune, s);
    }
  }

  /** Scanning from `pos` to the end of the pattern. */
  ghost function Run(readers: Readers, p: seq<Byte>, pos: nat, s: Scan): Outcome
    requires pos <= |p| && readers.Sound()
    decreases |p| - pos
  {
    if pos == |p| then Fine(s)
    else
      StepMoves(readers, p, pos, s);
      match StepAt(readers, p, pos, s)
      case Stop(e) => Fails(e)
      case To(next, s') => Run(readers, p, next, s')
  }

  /** The token stream of a scanned pattern, or what is wrong with its end. */
  datatype Scanned = Scanned(postfix: seq<Token>, scan: Scan) | Rejected(error: ErrorCode)

  function Finish(o: Outcome): Scanned
  {
    match o
    case Fails(e) => Rejected(e)
    case Fine(s) =>
      if s.outer.Within? then Rejected(s.Reported(ErrorMissingParen))
      else if s.escaped then Rejected(s.Reported(ErrorTrailingBackslash))
      else if |s.frame.Tokens()| > MAX_POSTFIX_SIZE then Rejected(ErrorPatternTooLarge)
      else Scanned(s.frame.Tokens(), s)
  }
}
