// Trees and their written form: locations in source.h, and str and equals in ast.h.

module TreeText {
  import opened Options
  import opened Utf8

  // ---------------------------------------------------------------------
  // Trees
  // ---------------------------------------------------------------------

  /** A source text. A synthetic one may hold an extract only, which began at `offset` in the file. */
  datatype Source = Source(origin: seq<Byte>, contents: seq<Byte>, offset: nat)

  datatype Location = Location(source: Option<Source>, pos: nat, len: nat)
  {
    /** The location lies in its source. */
    predicate Valid()
    {
      source.Some? ==> source.value.offset <= pos && pos + len <= source.value.offset + |source.value.contents|
    }

    function View(): seq<Byte>
      requires Valid()
    {
      if source.None? then [] else source.value.contents[pos - source.value.offset..][..len]
    }

    function Origin(): seq<Byte>
    {
      if source.None? then [] else source.value.origin
    }
  }

  /** A token type. The text of print types is part of a node; nodes of symtab types own a symbol table. */
  datatype Token = Token(name: seq<Byte>, printed: bool, symtab: bool)

  /** The names bound in a scope with the types they are bound to, and the scopes that are included. */
  datatype Symbols = Symbols(entries: seq<Entry>, includes: seq<seq<Byte>>)
  datatype Entry = Entry(name: seq<Byte>, types: seq<seq<Byte>>)

  const NO_SYMBOLS: Symbols := Symbols([], [])

  datatype Tree = Node(token: Token, loc: Location, symbols: Symbols, children: seq<Tree>)

  /** Structural equality: of types, of the text of print nodes, and of all children. */
  predicate Equals(a: Tree, b: Tree)
    requires Printable(a) && Printable(b)
    decreases a
  {
    && a.token == b.token && (a.token.printed ==> a.loc.View() == b.loc.View())
    && |a.children| == |b.children|
    && forall i :: 0 <= i < |a.children| ==> Equals(a.children[i], b.children[i])
  }

  /** Print nodes have a location in their source. */
  predicate Printable(t: Tree)
  {
    (t.token.printed ==> t.loc.Valid()) && forall c :: c in t.children ==> Printable(c)
  }

  // ---------------------------------------------------------------------
  // Written form
  // ---------------------------------------------------------------------

  const NEWLINE: Byte := 10
  const SPACE: Byte := 32
  const OPEN: Byte := 40
  const CLOSE: Byte := 41
  const COLON: Byte := 58
  const EQUAL: Byte := 61
  const LBRACE: Byte := 123
  const BAR: Byte := 124
  const RBRACE: Byte := 125

  const INCLUDE: seq<Byte> := [105, 110, 99, 108, 117, 100, 101]

  /** Decimal digits. */
  function Digits(n: nat): (d: seq<Byte>)
    ensures d != []
  {
    if n < 10 then [48 + n] else Digits(n / 10) + [48 + n % 10]
  }

  /** A length, a colon and that many bytes. */
  function Netstring(s: seq<Byte>): seq<Byte>
  {
    Digits(|s|) + ([COLON] + s)
  }

  function Indent(level: nat): (s: seq<Byte>)
    ensures |s| == 2 * level && forall k :: 0 <= k < |s| ==> s[k] == SPACE
  {
    seq(2 * level, _ => SPACE)
  }

  function TypesText(types: seq<seq<Byte>>, n: nat, level: nat): seq<Byte>
    requires n <= |types|
  {
    if n == 0 then [] else TypesText(types, n - 1, level) + ([NEWLINE] + Indent(level) + types[n - 1])
  }

  function EntryText(e: Entry, level: nat): seq<Byte>
  {
    [NEWLINE] + Indent(level + 1) + e.name + [SPACE, EQUAL] +
    if |e.types| == 1 then [SPACE] + e.types[0] else TypesText(e.types, |e.types|, level + 2)
  }

  function EntriesText(entries: seq<Entry>, n: nat, level: nat): seq<Byte>
    requires n <= |entries|
  {
    if n == 0 then [] else EntriesText(entries, n - 1, level) + EntryText(entries[n - 1], level)
  }

  function IncludesText(includes: seq<seq<Byte>>, n: nat, level: nat): seq<Byte>
    requires n <= |includes|
  {
    if n == 0 then []
    else IncludesText(includes, n - 1, level) + ([NEWLINE] + Indent(level + 1) + INCLUDE + [SPACE] + includes[n - 1])
  }

  /** What stands between the braces of a symbol table. */
  function SymbolsText(s: Symbols, level: nat): seq<Byte>
  {
    EntriesText(s.entries, |s.entries|, level) + IncludesText(s.includes, |s.includes|, level)
  }

  /** A location; the origin is left out where it is the one of the enclosing node. */
  function LocationText(token: Token, loc: Location, enclosing: seq<Byte>): seq<Byte>
    requires token.printed ==> loc.Valid()
  {
    var origin := loc.Origin();
    if origin == [] then
      if token.printed then [SPACE] + Netstring(loc.View()) else []
    else
      [SPACE] + ((if origin != enclosing then Netstring(origin) else []) + PlaceText(token, loc))
  }

  /** A position, and the text of a print node or a length. */
  function PlaceText(token: Token, loc: Location): seq<Byte>
    requires token.printed ==> loc.Valid()
  {
    [BAR] + (Digits(loc.pos) + ([BAR] + if token.printed then Netstring(loc.View()) else Digits(loc.len)))
  }

  function TableText(t: Tree, level: nat): seq<Byte>
  {
    if t.token.symtab then [NEWLINE] + (Indent(level + 1) + ([LBRACE] + (SymbolsText(t.symbols, level + 1) + [RBRACE]))) else []
  }

  /** Every node but the outermost starts a line. */
  function LineText(level: nat): seq<Byte>
  {
    (if level != 0 then [NEWLINE] else []) + Indent(level)
  }

  /** What is written before the children of a node. */
  function HeadText(t: Tree, level: nat, enclosing: seq<Byte>): seq<Byte>
    requires Printable(t)
  {
    LineText(level) + ([OPEN] + (t.token.name + (LocationText(t.token, t.loc, enclosing) + TableText(t, level))))
  }

  /** The children from the `i`-th on, and the end of the node. */
  function TailText(t: Tree, i: nat, level: nat): seq<Byte>
    requires Printable(t) && i <= |t.children|
    decreases t, |t.children| - i, 0
  {
    if i == |t.children| then [CLOSE]
    else Text(t.children[i], level, t.loc.Origin()) + TailText(t, i + 1, level)
  }

  function Text(t: Tree, level: nat, enclosing: seq<Byte>): seq<Byte>
    requires Printable(t)
    decreases t, |t.children| + 1, 0
  {
    HeadText(t, level, enclosing) + TailText(t, 0, level + 1)
  }

  // ---------------------------------------------------------------------
  // The writer
  // ---------------------------------------------------------------------

  /** The nodes on the path to the one that is written, each with the child that comes next. */
  datatype Path = Outside | Inside(outer: Path, node: Tree, next: nat)

  function Depth(p: Path): nat
  {
    if p.Outside? then 0 else Depth(p.outer) + 1
  }

  ghost predicate OnPath(p: Path)
  {
    p.Inside? ==> Printable(p.node) && p.next <= |p.node.children| && OnPath(p.outer)
  }

  /** What remains to be written. */
  ghost function RestText(p: Path, level: nat): seq<Byte>
    requires OnPath(p) && Depth(p) <= level
  {
    if p.Outside? then [] else TailText(p.node, p.next, level) + RestText(p.outer, level - 1)
  }

  /** The origins of the nodes on the path, the innermost last. */
  ghost predicate Origins(p: Path, stack: seq<seq<Byte>>)
  {
    match p
    case Outside => stack == []
    case Inside(outer, node, _) => stack != [] && stack[|stack| - 1] == node.loc.Origin() && Origins(outer, stack[..|stack| - 1])
  }

  /** The number of steps of a walk from the `i`-th child on. */
  ghost function TailSteps(t: Tree, i: nat): nat
    requires i <= |t.children|
    decreases t, |t.children| - i
  {
    if i == |t.children| then 1 else TailSteps(t.children[i], 0) + 1 + TailSteps(t, i + 1)
  }

  ghost function Steps(p: Path): nat
    requires OnPath(p)
  {
    if p.Outside? then 0 else TailSteps(p.node, p.next) + Steps(p.outer)
  }

  /** Writes a piece of what is still to be written. */
  method Put(out: seq<Byte>, piece: seq<Byte>, ghost tail: seq<Byte>) returns (text: seq<Byte>)
    ensures text == out + piece
    ensures text + tail == out + (piece + tail)
  {
    text := out + piece;
    assert (out + piece) + tail == out + (piece + tail);
  }

  /** Writes the last piece. */
  method PutLast(out: seq<Byte>, piece: seq<Byte>) returns (text: seq<Byte>)
    ensures text == out + piece
  {
    text := out + piece;
  }

  method WritePlace(token: Token, loc: Location, out: seq<Byte>) returns (text: seq<Byte>)
    requires token.printed ==> loc.Valid()
    ensures text == out + PlaceText(token, loc)
  {
    ghost var extent := if token.printed then Netstring(loc.View()) else Digits(loc.len);
    text := Put(out, [BAR], Digits(loc.pos) + ([BAR] + extent));
    text := Put(text, Digits(loc.pos), [BAR] + extent);
    text := Put(text, [BAR], extent);
    if token.printed {
      text := PutLast(text, Netstring(loc.View()));
    } else {
      text := PutLast(text, Digits(loc.len));
    }
  }

  /** Writes a location. */
  method WriteLocation(token: Token, loc: Location, enclosing: seq<Byte>, out: seq<Byte>) returns (text: seq<Byte>)
    requires token.printed ==> loc.Valid()
    ensures text == out + LocationText(token, loc, enclosing)
  {
    text := out;
    var origin := loc.Origin();
    if origin != [] {
      ghost var place := PlaceText(token, loc);
      if origin != enclosing {
        text := Put(text, [SPACE], Netstring(origin) + place);
        text := Put(text, Netstring(origin), place);
      } else {
        text := Put(text, [SPACE], [] + place);
        assert [] + place == place;
      }
      text := WritePlace(token, loc, text);
    } else if token.printed {
      text := Put(text, [SPACE], Netstring(loc.View()));
      text := PutLast(text, Netstring(loc.View()));
    }
  }

  method WriteTable(t: Tree, level: nat, out: seq<Byte>) returns (text: seq<Byte>)
    ensures text == out + TableText(t, level)
  {
    text := out;
    if t.token.symtab {
      ghost var inner := SymbolsText(t.symbols, level + 1);
      text := Put(text, [NEWLINE], Indent(level + 1) + ([LBRACE] + (inner + [RBRACE])));
      text := Put(text, Indent(level + 1), [LBRACE] + (inner + [RBRACE]));
      text := Put(text, [LBRACE], inner + [RBRACE]);
      text := Put(text, SymbolsText(t.symbols, level + 1), [RBRACE]);
      text := PutLast(text, [RBRACE]);
    }
  }

  /** What is written when a node is entered. */
  method Enter(t: Tree, out: seq<Byte>, level: nat, originStack: seq<seq<Byte>>) returns (text: seq<Byte>, origins: seq<seq<Byte>>)
    requires Printable(t)
    ensures text == out + HeadText(t, level, if originStack == [] then [] else originStack[|originStack| - 1])
    ensures origins == originStack + [t.loc.Origin()]
  {
    var effective := if originStack == [] then [] else originStack[|originStack| - 1];
    ghost var rest := LocationText(t.token, t.loc, effective) + TableText(t, level);
    text := Put(out, LineText(level), [OPEN] + (t.token.name + rest));
    text := Put(text, [OPEN], t.token.name + rest);
    text := Put(text, t.token.name, rest);
    ghost var named := text;
    text := WriteLocation(t.token, t.loc, effective, text);
    ghost var placed := text;
    text := WriteTable(t, level, text);
    JoinLast(named, LocationText(t.token, t.loc, effective), TableText(t, level));
    origins := originStack + [t.loc.Origin()];
  }

  lemma JoinLast(out: seq<Byte>, a: seq<Byte>, b: seq<Byte>)
    ensures (out + a) + b == out + (a + b)
  {
  }

  /** Entering the next child writes its head. */
  lemma {:induction false} EnterRest(outer: Path, node: Tree, next: nat, level: nat)
    requires OnPath(Inside(outer, node, next)) && next < |node.children| && Depth(outer) < level
    ensures var child := node.children[next];
            OnPath(Inside(Inside(outer, node, next + 1), child, 0)) &&
            RestText(Inside(outer, node, next), level) ==
            HeadText(child, level, node.loc.Origin()) + RestText(Inside(Inside(outer, node, next + 1), child, 0), level + 1)
  {
    var child := node.children[next];
    var inner := Inside(outer, node, next + 1);
    assert child in node.children;
    var head, tail := HeadText(child, level, node.loc.Origin()), TailText(child, 0, level + 1);
    var others, rest := TailText(node, next + 1, level), RestText(outer, level - 1);
    assert TailText(node, next, level) == (head + tail) + others;
    assert RestText(Inside(outer, node, next), level) == ((head + tail) + others) + rest;
    JoinLast(head + tail, others, rest);
    JoinLast(head, tail, others + rest);
    assert RestText(inner, level) == others + rest;
    assert RestText(Inside(inner, child, 0), level + 1) == tail + RestText(inner, level);
  }

  lemma {:induction false} EnterSteps(outer: Path, node: Tree, next: nat)
    requires OnPath(Inside(outer, node, next)) && next < |node.children|
    requires OnPath(Inside(Inside(outer, node, next + 1), node.children[next], 0))
    ensures Steps(Inside(Inside(outer, node, next + 1), node.children[next], 0)) < Steps(Inside(outer, node, next))
  {
    var child, inner := node.children[next], Inside(outer, node, next + 1);
    assert Steps(Inside(inner, child, 0)) == TailSteps(child, 0) + Steps(inner);
  }

  /** The next child is entered. */
  method Descend(out: seq<Byte>, stack: seq<seq<Byte>>, level: nat, outer: Path, node: Tree, next: nat)
      returns (out': seq<Byte>, stack': seq<seq<Byte>>, path': Path)
    requires OnPath(Inside(outer, node, next)) && Depth(outer) < level && Origins(Inside(outer, node, next), stack) && next < |node.children|
    ensures path' == Inside(Inside(outer, node, next + 1), node.children[next], 0)
    ensures OnPath(path') && Origins(path', stack') && Steps(path') < Steps(Inside(outer, node, next))
    ensures out' + RestText(path', level + 1) == out + RestText(Inside(outer, node, next), level)
  {
    EnterRest(outer, node, next, level);
    EnterSteps(outer, node, next);
    path' := Inside(Inside(outer, node, next + 1), node.children[next], 0);
    JoinLast(out, HeadText(node.children[next], level, node.loc.Origin()), RestText(path', level + 1));
    out', stack' := Enter(node.children[next], out, level, stack);
    assert stack'[..|stack'| - 1] == stack;
  }

  /** The node is left. */
  method Ascend(out: seq<Byte>, stack: seq<seq<Byte>>, level: nat, outer: Path, node: Tree, next: nat)
      returns (out': seq<Byte>, stack': seq<seq<Byte>>)
    requires OnPath(Inside(outer, node, next)) && Depth(outer) < level && Origins(Inside(outer, node, next), stack) && next == |node.children|
    ensures OnPath(outer) && Origins(outer, stack') && Steps(outer) < Steps(Inside(outer, node, next))
    ensures out' + RestText(outer, level - 1) == out + RestText(Inside(outer, node, next), level)
  {
    JoinLast(out, [CLOSE], RestText(outer, level - 1));
    out', stack' := out + [CLOSE], stack[..|stack| - 1];
  }

  /** One step of the walk: the next child is entered, or the node is left. */
  method Advance(out: seq<Byte>, stack: seq<seq<Byte>>, level: nat, path: Path)
      returns (out': seq<Byte>, stack': seq<seq<Byte>>, level': nat, path': Path)
    requires path.Inside? && OnPath(path) && Depth(path) <= level && Origins(path, stack)
    ensures OnPath(path') && level' - Depth(path') == level - Depth(path) && Origins(path', stack')
    ensures out' + RestText(path', level') == out + RestText(path, level)
    ensures Steps(path') < Steps(path)
  {
    var Inside(outer, node, next) := path;
    if next < |node.children| {
      out', stack', path' := Descend(out, stack, level, outer, node, next);
      level' := level + 1;
    } else {
      out', stack' := Ascend(out, stack, level, outer, node, next);
      level', path' := level - 1, outer;
    }
  }

  /** Walks the tree with an explicit path and writes every node when it is entered and left. */
  method Str(t: Tree, start: nat) returns (out: seq<Byte>)
    requires Printable(t)
    ensures out == Text(t, start, [])
  {
    var originStack: seq<seq<Byte>> := [];
    var level := start;
    out, originStack := Enter(t, [], level, originStack);
    level := level + 1;
    var path := Inside(Outside, t, 0);
    Opening(t, out, start);
    while path.Inside?
      invariant OnPath(path) && level == start + Depth(path) && Origins(path, originStack)
      invariant out + RestText(path, level) == Text(t, start, [])
      decreases Steps(path)
    {
      out, originStack, level, path := Advance(out, originStack, level, path);
    }
    NoneBeside(out);
  }

  lemma {:induction false} Opening(t: Tree, out: seq<Byte>, start: nat)
    requires Printable(t) && out == [] + HeadText(t, start, [])
    ensures out + RestText(Inside(Outside, t, 0), start + 1) == Text(t, start, [])
  {
    var head, tail := HeadText(t, start, []), TailText(t, 0, start + 1);
    NoneBeside(head);
    NoneBeside(tail);
    assert RestText(Outside, start) == [];
    assert RestText(Inside(Outside, t, 0), start + 1) == tail + RestText(Outside, start);
  }

  lemma NoneBeside(s: seq<Byte>)
    ensures [] + s == s && s + [] == s
  {
  }
}
