// Reloading written trees: build_ast in regex.h. What its regexes consume is
// stated as functions on the decoded runes.

module TreeReader {
  import opened Options
  import opened Utf8
  import opened Encoding
  import opened RuneClasses
  import opened TreeText

  // ---------------------------------------------------------------------
  // What the regexes consume
  // ---------------------------------------------------------------------

  /** The character classes of the regexes: space, digits, what a type name consists of, and all but a closing brace. */
  datatype Kind = Blank | Digit | Name | Inner

  predicate IsSpace(r: Rune) { 9 <= r <= 13 || r == SPACE }

  predicate Belongs(kind: Kind, r: Rune)
  {
    match kind
    case Blank => IsSpace(r)
    case Digit => IsDigit(r)
    case Name => IsScalar(r) && !IsSpace(r) && r != OPEN && r != CLOSE
    case Inner => IsScalar(r) && r != RBRACE
  }

  /** The end of the longest run of runes that belong to a class. */
  function RunEnd(s: seq<Byte>, pos: nat, kind: Kind): (end: nat)
    requires pos <= |s|
    ensures pos <= end <= |s|
    decreases |s| - pos
  {
    if pos == |s| || !Belongs(kind, DecodeRune(s, pos).rune) then pos
    else RunEnd(s, pos + DecodeRune(s, pos).width, kind)
  }

  /** The position after the rune `r`, if it stands at `pos`. */
  function After(s: seq<Byte>, pos: nat, r: Rune): (next: Option<nat>)
    requires pos <= |s|
    ensures next.Some? ==> pos < next.value <= |s|
  {
    if pos < |s| && DecodeRune(s, pos).rune == r then Some(pos + DecodeRune(s, pos).width) else None
  }

  /** The position after a rune and the spaces before it. */
  function AfterSpaced(s: seq<Byte>, pos: nat, r: Rune): (next: Option<nat>)
    requires pos <= |s|
    ensures next.Some? ==> pos < next.value <= |s|
  {
    After(s, RunEnd(s, pos, Blank), r)
  }

  const SIZE_LIMIT: nat := 0x1_0000_0000_0000_0000

  function Value(d: seq<Byte>): nat
  {
    if d == [] then 0 else 10 * Value(d[..|d| - 1]) + if IsDigit(d[|d| - 1]) then d[|d| - 1] - 48 else 0
  }

  /** What the digits convert to; anything that is no number of machine size converts to 0. */
  function Number(d: seq<Byte>): nat
  {
    if (forall k :: 0 <= k < |d| ==> IsDigit(d[k])) && Value(d) < SIZE_LIMIT then Value(d) else 0
  }

  datatype Reading<T> = Nothing | Read(value: T, next: nat)

  /** Digits at `pos`, at least one. */
  function ReadDigits(s: seq<Byte>, pos: nat): (r: Reading<nat>)
    requires pos <= |s|
    ensures r.Read? ==> pos < r.next <= |s|
  {
    var end := RunEnd(s, pos, Digit);
    if end == pos then Nothing else Read(Number(s[pos..end]), end)
  }

  function ReadNumber(s: seq<Byte>, pos: nat): (r: Reading<nat>)
    requires pos <= |s|
    ensures r.Read? ==> pos < r.next <= |s|
  {
    ReadDigits(s, RunEnd(s, pos, Blank))
  }

  function ReadBarNumber(s: seq<Byte>, pos: nat): (r: Reading<nat>)
    requires pos <= |s|
    ensures r.Read? ==> pos < r.next <= |s|
  {
    match AfterSpaced(s, pos, BAR)
    case None => Nothing
    case Some(p) => ReadDigits(s, p)
  }

  /** The length of a netstring and the colon after it. */
  function ReadLength(s: seq<Byte>, pos: nat): (r: Reading<nat>)
    requires pos <= |s|
    ensures r.Read? ==> pos < r.next <= |s|
  {
    match ReadNumber(s, pos)
    case Nothing => Nothing
    case Read(n, p) =>
      match After(s, p, COLON)
      case None => Nothing
      case Some(q) => Read(n, q)
  }

  /** A netstring. One that is longer than what is left of the text is refused, but its length is consumed. */
  function ReadNetstring(s: seq<Byte>, pos: nat): (r: (Option<seq<Byte>>, nat))
    requires pos <= |s|
    ensures pos <= r.1 <= |s|
  {
    match ReadLength(s, pos)
    case Nothing => (None, pos)
    case Read(n, p) => if n > |s| - p then (None, p) else (Some(s[p..p + n]), p + n)
  }

  /** An opening parenthesis and a type name. */
  function ReadHead(s: seq<Byte>, pos: nat): (r: Reading<seq<Byte>>)
    requires pos <= |s|
    ensures r.Read? ==> pos < r.next <= |s|
  {
    match AfterSpaced(s, pos, OPEN)
    case None => Nothing
    case Some(p) =>
      var name := RunEnd(s, p, Blank);
      var end := RunEnd(s, name, Kind.Name);
      Read(s[name..end], end)
  }

  /** A symbol table is passed over, up to its first closing brace. */
  function SkipTable(s: seq<Byte>, pos: nat): (next: nat)
    requires pos <= |s|
    ensures pos <= next <= |s|
  {
    match AfterSpaced(s, pos, LBRACE)
    case None => pos
    case Some(p) =>
      match After(s, RunEnd(s, p, Inner), RBRACE)
      case None => pos
      case Some(q) => q
  }

  /** A source that holds the text itself. */
  function Synthetic(contents: seq<Byte>, origin: seq<Byte>, pos: nat, len: nat): Location
  {
    Location(Some(Source(origin, contents, 0)), pos, len)
  }

  /** What follows a position: the text of a print node or a length. */
  function ReadExtent(s: seq<Byte>, pos: nat, origin: seq<Byte>, at: nat): (r: Reading<Location>)
    requires pos <= |s|
    ensures r.Read? ==> pos <= r.next <= |s|
  {
    match After(s, pos, BAR)
    case None => Nothing
    case Some(p) =>
      var (content, q) := ReadNetstring(s, p);
      if content.Some? then Read(Location(Some(Source(origin, content.value, at)), at, |content.value|), q)
      else
        match ReadNumber(s, q)
        case Nothing => Nothing
        case Read(len, e) => Read(Synthetic([], origin, at, len), e)
  }

  /** The location of a node with the given type name inside a node at the given location. */
  function ReadLocation(s: seq<Byte>, pos: nat, name: seq<Byte>, outer: Option<Location>): (r: Reading<Location>)
    requires pos <= |s|
    ensures r.Read? ==> pos <= r.next <= |s|
  {
    var (text, p) := ReadNetstring(s, pos);
    match ReadBarNumber(s, p)
    case Read(at, q) =>
      ReadExtent(s, q, if text.Some? then text.value else if outer.Some? then outer.value.Origin() else [], at)
    case Nothing =>
      if text.Some? then Read(Synthetic(text.value, [], 0, |text.value|), p)
      else Read(Synthetic(name, [], 0, |name|), p)
  }

  // ---------------------------------------------------------------------
  // The reader
  // ---------------------------------------------------------------------

  /** The token types by name. */
  type Tokens = map<seq<Byte>, Token>

  /** The nodes that are still open, with the children they have so far. */
  datatype Context = Top | Within(outer: Context, node: Tree)
  {
    function Here(): Option<Location> { if Top? then None else Some(node.loc) }

    /** The innermost node is complete and becomes a child of the next one. */
    function Closed(): Context
      requires Within? && outer.Within?
    {
      Within(outer.outer, outer.node.(children := outer.node.children + [node]))
    }
  }

  /**
   * What the regexes of the reader consume in a text: the head of a node, a
   * location after a type name inside a node, a symbol table, and the end of
   * a node.
   */
  datatype Lexer = Lexer(size: nat, head: nat -> Reading<seq<Byte>>, place: (nat, seq<Byte>, Option<Location>) -> Reading<Location>,
                         table: nat -> nat, close: nat -> Option<nat>)

  function LexerOf(s: seq<Byte>): Lexer
  {
    Lexer(|s|,
          (pos: nat) => if pos <= |s| then ReadHead(s, pos) else Nothing,
          (pos: nat, name: seq<Byte>, outer: Option<Location>) => if pos <= |s| then ReadLocation(s, pos, name, outer) else Nothing,
          (pos: nat) => if pos <= |s| then SkipTable(s, pos) else pos,
          (pos: nat) => if pos <= |s| then AfterSpaced(s, pos, CLOSE) else None)
  }

  /** Heads and ends of nodes are not empty. */
  ghost predicate Progresses(lex: Lexer)
  {
    && (forall pos: nat :: lex.head(pos).Read? ==> pos < lex.head(pos).next <= lex.size)
    && (forall pos: nat, name: seq<Byte>, outer: Option<Location> :: pos <= lex.size && lex.place(pos, name, outer).Read? ==> pos <= lex.place(pos, name, outer).next <= lex.size)
    && (forall pos: nat :: pos <= lex.size ==> pos <= lex.table(pos) <= lex.size)
    && (forall pos: nat :: lex.close(pos).Some? ==> pos < lex.close(pos).value <= lex.size)
  }

  lemma LexerProgresses(s: seq<Byte>)
    ensures Progresses(LexerOf(s))
  {
  }

  /** Reading on where a node must begin. */
  function Run(lex: Lexer, tokens: Tokens, pos: nat, c: Context): Option<Tree>
    requires Progresses(lex) && pos <= lex.size
    decreases lex.size - pos, 0
  {
    match lex.head(pos)
    case Nothing => None
    case Read(name, p) =>
      if name !in tokens then None
      else
        match lex.place(p, name, c.Here())
        case Nothing => None
        case Read(loc, q) => Close(lex, tokens, lex.table(q), Within(c, Node(tokens[name], loc, NO_SYMBOLS, [])))
  }

  /** Reading on where the innermost node may end. */
  function Close(lex: Lexer, tokens: Tokens, pos: nat, c: Context): Option<Tree>
    requires Progresses(lex) && pos <= lex.size && c.Within?
    decreases lex.size - pos, 1
  {
    match lex.close(pos)
    case None => Run(lex, tokens, pos, c)
    case Some(p) => if c.outer.Top? then Some(c.node) else Close(lex, tokens, p, c.Closed())
  }

  /** The tree that stands in the text from `start` on. */
  function TreeAt(tokens: Tokens, s: seq<Byte>, start: nat): Option<Tree>
    requires start <= |s|
  {
    LexerProgresses(s);
    Run(LexerOf(s), tokens, start, Top)
  }

  /** The loop of the reader. */
  method BuildAst(tokens: Tokens, s: seq<Byte>, start: nat) returns (tree: Option<Tree>)
    ensures tree == TreeAt(tokens, s, if start <= |s| then start else |s|)
  {
    var pos := if start <= |s| then start else |s|;
    ghost var lex, begin := LexerOf(s), pos;
    LexerProgresses(s);
    var c := Top;
    while pos < |s|
      invariant pos <= |s|
      invariant Run(lex, tokens, pos, c) == Run(lex, tokens, begin, Top)
      decreases |s| - pos
    {
      ghost var here := pos;
      var head := ReadHead(s, pos);
      assert head == lex.head(pos);
      if head.Nothing? || head.value !in tokens {
        return None;
      }
      var place := ReadLocation(s, head.next, head.value, c.Here());
      assert place == lex.place(head.next, head.value, c.Here());
      if place.Nothing? {
        return None;
      }
      c := Within(c, Node(tokens[head.value], place.value, NO_SYMBOLS, []));
      pos := SkipTable(s, place.next);
      assert pos == lex.table(place.next);
      var next := AfterSpaced(s, pos, CLOSE);
      while next.Some?
        invariant here < pos <= |s| && c.Within? && next == lex.close(pos)
        invariant Close(lex, tokens, pos, c) == Run(lex, tokens, begin, Top)
        decreases |s| - pos
      {
        pos := next.value;
        if c.outer.Top? {
          return Some(c.node);
        }
        c := c.Closed();
        next := AfterSpaced(s, pos, CLOSE);
      }
    }
    return None;
  }
}
