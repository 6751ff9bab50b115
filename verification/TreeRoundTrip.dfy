// Writing a tree and reloading it: build_ast in regex.h undoes str in ast.h,
// up to what equals in ast.h looks at.

module TreeRoundTrip {
  import opened Options
  import opened Utf8
  import opened Encoding
  import opened RuneClasses
  import opened TreeText
  import opened TreeReader

  // ---------------------------------------------------------------------
  // Trees that can be reloaded
  // ---------------------------------------------------------------------

  /** All runes of the text from byte `i` on belong to a class. */
  ghost predicate Safe(s: seq<Byte>, i: nat, kind: Kind)
    requires i <= |s|
    decreases |s| - i
  {
    i == |s| || (Belongs(kind, DecodeRune(s, i).rune) && Safe(s, i + DecodeRune(s, i).width, kind))
  }

  /** No name in the table holds a closing brace. */
  ghost predicate SafeSymbols(s: Symbols)
  {
    && (forall e :: e in s.entries ==> Safe(e.name, 0, Inner) && forall t :: t in e.types ==> Safe(t, 0, Inner))
    && forall n :: n in s.includes ==> Safe(n, 0, Inner)
  }

  /** Positions and lengths are of machine size; the text of a print node lies in its source. */
  ghost predicate Sized(token: Token, loc: Location)
  {
    && loc.pos < SIZE_LIMIT && loc.len < SIZE_LIMIT && |loc.Origin()| < SIZE_LIMIT
    && (token.printed ==> loc.Valid() && |loc.View()| < SIZE_LIMIT)
  }

  /** The type is registered under its name, which is a word. */
  ghost predicate Registered(tokens: Tokens, token: Token)
  {
    token.name in tokens && tokens[token.name] == token && token.name != [] && Safe(token.name, 0, Kind.Name)
  }

  ghost predicate Dumpable(tokens: Tokens, t: Tree)
  {
    && Registered(tokens, t.token) && Sized(t.token, t.loc) && (t.token.symtab ==> SafeSymbols(t.symbols))
    && forall c :: c in t.children ==> Dumpable(tokens, c)
  }

  lemma {:induction false} DumpablePrints(tokens: Tokens, t: Tree)
    requires Dumpable(tokens, t)
    ensures Printable(t)
  {
    forall c | c in t.children
      ensures Printable(c)
    {
      DumpablePrints(tokens, c);
    }
  }

  // ---------------------------------------------------------------------
  // The reloaded tree
  // ---------------------------------------------------------------------

  /** A location as it comes back: the source holds what was written of it. */
  function ReloadedLocation(token: Token, loc: Location): Location
    requires token.printed ==> loc.Valid()
  {
    var origin := loc.Origin();
    if origin == [] then
      var text := if token.printed then loc.View() else token.name;
      Synthetic(text, [], 0, |text|)
    else if token.printed then
      Location(Some(Source(origin, loc.View(), loc.pos)), loc.pos, |loc.View()|)
    else
      Synthetic([], origin, loc.pos, loc.len)
  }

  function Reloaded(t: Tree): Tree
    requires Printable(t)
  {
    Node(t.token, ReloadedLocation(t.token, t.loc), NO_SYMBOLS, ReloadedChildren(t, |t.children|))
  }

  function ReloadedChildren(t: Tree, n: nat): (ts: seq<Tree>)
    requires Printable(t) && n <= |t.children|
    ensures |ts| == n
    decreases t, n
  {
    if n == 0 then [] else ReloadedChildren(t, n - 1) + [Reloaded(t.children[n - 1])]
  }

  // ---------------------------------------------------------------------
  // Scanning what was written
  // ---------------------------------------------------------------------

  /** A rune is decoded in the same way wherever its text stands, unless a continuation byte follows. */
  lemma {:induction false} DecodeWithin(s: seq<Byte>, pos: nat, part: seq<Byte>, i: nat)
    requires Holds(s, pos, part) && i < |part| && (pos + |part| < |s| ==> s[pos + |part|] < 128)
    ensures DecodeRune(s, pos + i) == DecodeRune(part, i)
  {
    forall k | i <= k < |part|
      ensures s[pos + k] == part[k]
    {
      HoldsByte(s, pos, part, k);
    }
  }

  /** Scanning runs through safe text. */
  lemma {:induction false} SafeRuns(s: seq<Byte>, pos: nat, part: seq<Byte>, i: nat, kind: Kind)
    requires Holds(s, pos, part) && i <= |part| && Safe(part, i, kind) && (pos + |part| < |s| ==> s[pos + |part|] < 128)
    ensures RunEnd(s, pos + i, kind) == RunEnd(s, pos + |part|, kind)
    decreases |part| - i
  {
    if i < |part| {
      DecodeWithin(s, pos, part, i);
      SafeRuns(s, pos, part, i + DecodeRune(part, i).width, kind);
    }
  }

  lemma {:induction false} StopsAt(s: seq<Byte>, pos: nat, kind: Kind)
    requires pos < |s| && s[pos] < 128 && !Belongs(kind, s[pos])
    ensures RunEnd(s, pos, kind) == pos
  {
  }

  /** Scanning runs through safe text up to an ASCII byte that does not belong. */
  lemma {:induction false} SafeUpTo(s: seq<Byte>, pos: nat, part: seq<Byte>, kind: Kind)
    requires Holds(s, pos, part) && Safe(part, 0, kind)
    requires pos + |part| < |s| && s[pos + |part|] < 128 && !Belongs(kind, s[pos + |part|])
    ensures RunEnd(s, pos, kind) == pos + |part|
  {
    SafeRuns(s, pos, part, 0, kind);
    StopsAt(s, pos + |part|, kind);
  }

  lemma {:induction false} AsciiSafe(s: seq<Byte>, i: nat, kind: Kind)
    requires i <= |s| && forall k :: i <= k < |s| ==> s[k] < 128 && Belongs(kind, s[k])
    ensures Safe(s, i, kind)
    decreases |s| - i
  {
    if i < |s| {
      AsciiSafe(s, i + 1, kind);
    }
  }

  /** Safe text in front of safe text is safe, if no rune can reach across the seam. */
  lemma {:induction false} JoinSafe(a: seq<Byte>, b: seq<Byte>, i: nat, kind: Kind)
    requires i <= |a| && Safe(a, i, kind) && Safe(b, 0, kind)
    requires (b != [] ==> b[0] < 128) || (forall k :: 0 <= k < |a| ==> a[k] < 128)
    ensures Safe(a + b, i, kind)
    decreases |a| - i
  {
    var s := a + b;
    if i < |a| {
      if a[i] >= 128 {
        assert Holds(s, 0, a);
        DecodeWithin(s, 0, a, i);
      }
      JoinSafe(a, b, i + DecodeRune(a, i).width, kind);
    } else {
      ShiftSafe(a, b, 0, kind);
    }
  }

  lemma {:induction false} ShiftSafe(a: seq<Byte>, b: seq<Byte>, i: nat, kind: Kind)
    requires i <= |b| && Safe(b, i, kind)
    ensures Safe(a + b, |a| + i, kind)
    decreases |b| - i
  {
    if i < |b| {
      assert Holds(a + b, |a|, b);
      DecodeWithin(a + b, |a|, b, i);
      ShiftSafe(a, b, i + DecodeRune(b, i).width, kind);
    }
  }

  // ---------------------------------------------------------------------
  // Numbers and netstrings
  // ---------------------------------------------------------------------

  lemma {:induction false} DigitsAreDigits(n: nat)
    ensures forall k :: 0 <= k < |Digits(n)| ==> IsDigit(Digits(n)[k])
    ensures Value(Digits(n)) == n
  {
    if n < 10 {
      assert Digits(n)[..0] == [];
    } else {
      DigitsAreDigits(n / 10);
      var d := Digits(n);
      assert d[..|d| - 1] == Digits(n / 10);
    }
  }

  /** A number is read back, if something else follows. */
  lemma {:induction false} DigitsRead(s: seq<Byte>, pos: nat, n: nat)
    requires Holds(s, pos, Digits(n)) && n < SIZE_LIMIT
    requires pos + |Digits(n)| < |s| && s[pos + |Digits(n)|] < 128 && !IsDigit(s[pos + |Digits(n)|])
    ensures ReadDigits(s, pos) == Read(n, pos + |Digits(n)|)
  {
    DigitsAreDigits(n);
    AsciiSafe(Digits(n), 0, Digit);
    SafeUpTo(s, pos, Digits(n), Digit);
    HoldsSlice(s, pos, Digits(n));
  }

  /** A number before a colon. */
  lemma {:induction false} CountRead(s: seq<Byte>, pos: nat, n: nat, p: nat)
    requires Holds(s, pos, Digits(n)) && n < SIZE_LIMIT && p == pos + |Digits(n)| < |s| && s[p] == COLON
    ensures ReadLength(s, pos) == Read(n, p + 1)
  {
    DigitsAreDigits(n);
    HoldsByte(s, pos, Digits(n), 0);
    StopsAt(s, pos, Blank);
    DigitsRead(s, pos, n);
    assert After(s, p, COLON) == Some(p + 1);
  }

  lemma PayloadRead(s: seq<Byte>, pos: nat, text: seq<Byte>, p: nat)
    requires pos <= |s| && Holds(s, p, text) && ReadLength(s, pos) == Read(|text|, p)
    ensures ReadNetstring(s, pos) == (Some(text), p + |text|)
  {
    HoldsSlice(s, p, text);
  }

  lemma {:induction false} NetstringRead(s: seq<Byte>, pos: nat, text: seq<Byte>)
    requires Holds(s, pos, Netstring(text)) && |text| < SIZE_LIMIT
    ensures ReadNetstring(s, pos) == (Some(text), pos + |Netstring(text)|)
  {
    var d := Digits(|text|);
    var p := pos + |d|;
    HoldsParts(s, pos, d, [COLON] + text);
    HoldsParts(s, p, [COLON], text);
    HoldsByte(s, p, [COLON], 0);
    CountRead(s, pos, |text|, p);
    PayloadRead(s, pos, text, p + 1);
  }

  lemma {:induction false} SpacedNetstringRead(s: seq<Byte>, pos: nat, text: seq<Byte>)
    requires Holds(s, pos, [SPACE] + Netstring(text)) && |text| < SIZE_LIMIT
    ensures ReadNetstring(s, pos) == (Some(text), pos + 1 + |Netstring(text)|)
  {
    HoldsParts(s, pos, [SPACE], Netstring(text));
    HoldsByte(s, pos, [SPACE], 0);
    NetstringRead(s, pos + 1, text);
    HoldsByte(s, pos + 1, Netstring(text), 0);
    DigitsAreDigits(|text|);
    StopsAt(s, pos + 1, Blank);
  }

  // ---------------------------------------------------------------------
  // Where a node's head ends
  // ---------------------------------------------------------------------

  /** After spaces that do not stand at `pos` itself unless they start a line, a bracket follows. */
  ghost predicate Ends(s: seq<Byte>, pos: nat)
  {
    && pos < |s| && (s[pos] == NEWLINE || s[pos] == CLOSE)
    && var e := RunEnd(s, pos, Blank); e < |s| && (s[e] == OPEN || s[e] == CLOSE || s[e] == LBRACE)
  }

  lemma {:induction false} NothingMore(s: seq<Byte>, pos: nat)
    requires Ends(s, pos)
    ensures ReadNetstring(s, pos) == (None, pos) && ReadBarNumber(s, pos) == Nothing
  {
    var e := RunEnd(s, pos, Blank);
    StopsAt(s, e, Digit);
  }

  /** A line break, indentation and a bracket. */
  lemma {:induction false} LineEnds(s: seq<Byte>, pos: nat, level: nat, bracket: Byte)
    requires Holds(s, pos, [NEWLINE] + Indent(level) + [bracket]) && bracket < 128 && !IsSpace(bracket)
    ensures pos + 1 + 2 * level < |s| && s[pos] == NEWLINE && s[pos + 1 + 2 * level] == bracket
    ensures RunEnd(s, pos, Blank) == pos + 1 + 2 * level
  {
    var line := [NEWLINE] + Indent(level);
    HoldsParts(s, pos, line, [bracket]);
    HoldsByte(s, pos, line, 0);
    HoldsByte(s, pos + |line|, [bracket], 0);
    AsciiSafe(line, 0, Blank);
    SafeUpTo(s, pos, line, Blank);
  }

  // ---------------------------------------------------------------------
  // Symbol tables
  // ---------------------------------------------------------------------

  /** A new line, indentation and safe text. */
  lemma {:induction false} LineSafe(level: nat, text: seq<Byte>)
    requires Safe(text, 0, Inner)
    ensures Safe([NEWLINE] + Indent(level) + text, 0, Inner)
  {
    AsciiSafe([NEWLINE] + Indent(level), 0, Inner);
    JoinSafe([NEWLINE] + Indent(level), text, 0, Inner);
  }

  lemma {:induction false} TypesSafe(types: seq<seq<Byte>>, n: nat, level: nat)
    requires n <= |types| && forall t :: t in types ==> Safe(t, 0, Inner)
    ensures Safe(TypesText(types, n, level), 0, Inner)
    ensures TypesText(types, n, level) != [] ==> TypesText(types, n, level)[0] == NEWLINE
  {
    if n > 0 {
      TypesSafe(types, n - 1, level);
      LineSafe(level, types[n - 1]);
      JoinSafe(TypesText(types, n - 1, level), [NEWLINE] + Indent(level) + types[n - 1], 0, Inner);
    }
  }

  lemma {:induction false} RestSafe(types: seq<seq<Byte>>, level: nat)
    requires forall t :: t in types ==> Safe(t, 0, Inner)
    ensures var rest := if |types| == 1 then [SPACE] + types[0] else TypesText(types, |types|, level);
            Safe(rest, 0, Inner) && (rest != [] ==> rest[0] < 128)
  {
    if |types| == 1 {
      AsciiSafe([SPACE], 0, Inner);
      JoinSafe([SPACE], types[0], 0, Inner);
    } else {
      TypesSafe(types, |types|, level);
    }
  }

  lemma {:induction false} EntrySafe(e: Entry, level: nat)
    requires Safe(e.name, 0, Inner) && forall t :: t in e.types ==> Safe(t, 0, Inner)
    ensures Safe(EntryText(e, level), 0, Inner) && EntryText(e, level)[0] == NEWLINE
  {
    var head := [NEWLINE] + Indent(level + 1) + e.name;
    var rest := if |e.types| == 1 then [SPACE] + e.types[0] else TypesText(e.types, |e.types|, level + 2);
    LineSafe(level + 1, e.name);
    AsciiSafe([SPACE, EQUAL], 0, Inner);
    JoinSafe(head, [SPACE, EQUAL], 0, Inner);
    RestSafe(e.types, level + 2);
    JoinSafe(head + [SPACE, EQUAL], rest, 0, Inner);
  }

  lemma {:induction false} EntriesSafe(entries: seq<Entry>, n: nat, level: nat)
    requires n <= |entries|
    requires forall e :: e in entries ==> Safe(e.name, 0, Inner) && forall t :: t in e.types ==> Safe(t, 0, Inner)
    ensures Safe(EntriesText(entries, n, level), 0, Inner)
  {
    if n > 0 {
      EntriesSafe(entries, n - 1, level);
      EntrySafe(entries[n - 1], level);
      JoinSafe(EntriesText(entries, n - 1, level), EntryText(entries[n - 1], level), 0, Inner);
    }
  }

  lemma {:induction false} IncludesSafe(includes: seq<seq<Byte>>, n: nat, level: nat)
    requires n <= |includes| && forall i :: i in includes ==> Safe(i, 0, Inner)
    ensures Safe(IncludesText(includes, n, level), 0, Inner)
    ensures IncludesText(includes, n, level) != [] ==> IncludesText(includes, n, level)[0] == NEWLINE
  {
    if n > 0 {
      var head := [NEWLINE] + Indent(level + 1) + INCLUDE + [SPACE];
      IncludesSafe(includes, n - 1, level);
      AsciiSafe(head, 0, Inner);
      JoinSafe(head, includes[n - 1], 0, Inner);
      JoinSafe(IncludesText(includes, n - 1, level), head + includes[n - 1], 0, Inner);
    }
  }

  lemma {:induction false} SymbolsSafe(symbols: Symbols, level: nat)
    requires SafeSymbols(symbols)
    ensures Safe(SymbolsText(symbols, level), 0, Inner)
  {
    EntriesSafe(symbols.entries, |symbols.entries|, level);
    IncludesSafe(symbols.includes, |symbols.includes|, level);
    JoinSafe(EntriesText(symbols.entries, |symbols.entries|, level), IncludesText(symbols.includes, |symbols.includes|, level), 0, Inner);
  }

  lemma {:induction false} HoldsJoin(s: seq<Byte>, pos: nat, a: seq<Byte>, b: seq<Byte>)
    requires Holds(s, pos, a) && Holds(s, pos + |a|, b)
    ensures Holds(s, pos, a + b)
  {
    var mid := pos + |a|;
    forall k | 0 <= k < |a + b|
      ensures HoldsAt(s, pos, a + b, k)
    {
      if k < |a| {
        assert HoldsAt(s, pos, a, k);
      } else {
        assert HoldsAt(s, mid, b, k - |a|);
      }
    }
  }

  /** A table is passed over as a whole. */
  lemma {:induction false} TableSkipped(s: seq<Byte>, pos: nat, inner: seq<Byte>, level: nat)
    requires Holds(s, pos, [NEWLINE] + (Indent(level) + ([LBRACE] + (inner + [RBRACE])))) && Safe(inner, 0, Inner)
    ensures Ends(s, pos) && SkipTable(s, pos) == pos + 1 + 2 * level + 1 + |inner| + 1
  {
    var body := pos + 1 + 2 * level + 1;
    HoldsParts(s, pos, [NEWLINE], Indent(level) + ([LBRACE] + (inner + [RBRACE])));
    HoldsParts(s, pos + 1, Indent(level), [LBRACE] + (inner + [RBRACE]));
    HoldsParts(s, body - 1, [LBRACE], inner + [RBRACE]);
    HoldsParts(s, body, inner, [RBRACE]);
    HoldsByte(s, body + |inner|, [RBRACE], 0);
    HoldsJoin(s, pos, [NEWLINE], Indent(level));
    HoldsJoin(s, pos, [NEWLINE] + Indent(level), [LBRACE]);
    LineEnds(s, pos, level, LBRACE);
    SafeUpTo(s, body, inner, Inner);
  }

  // ---------------------------------------------------------------------
  // Locations
  // ---------------------------------------------------------------------

  /** A position after a bar. */
  lemma {:induction false} BarNumberRead(s: seq<Byte>, pos: nat, bar: nat, n: nat)
    requires Holds(s, bar, [BAR] + Digits(n)) && n < SIZE_LIMIT
    requires pos == bar || (pos + 1 == bar && s[pos] == SPACE)
    requires bar + 1 + |Digits(n)| < |s| && s[bar + 1 + |Digits(n)|] == BAR
    ensures ReadBarNumber(s, pos) == Read(n, bar + 1 + |Digits(n)|)
    ensures pos + 1 == bar ==> ReadNetstring(s, pos) == (None, pos)
  {
    HoldsParts(s, bar, [BAR], Digits(n));
    HoldsByte(s, bar, [BAR], 0);
    StopsAt(s, bar, Blank);
    StopsAt(s, bar, Digit);
    DigitsRead(s, bar + 1, n);
    assert AfterSpaced(s, bar, BAR) == Some(bar + 1);
    assert RunEnd(s, pos, Blank) == bar;
  }

  lemma {:induction false} LengthRead(s: seq<Byte>, pos: nat, n: nat)
    requires Holds(s, pos, Digits(n)) && n < SIZE_LIMIT && Ends(s, pos + |Digits(n)|)
    ensures ReadNetstring(s, pos) == (None, pos) && ReadNumber(s, pos) == Read(n, pos + |Digits(n)|)
  {
    DigitsAreDigits(n);
    HoldsByte(s, pos, Digits(n), 0);
    StopsAt(s, pos, Blank);
    DigitsRead(s, pos, n);
  }

  /** Where the parts of a place stand. */
  lemma {:induction false} PlaceParts(s: seq<Byte>, bar: nat, d: seq<Byte>, extent: seq<Byte>)
    requires Holds(s, bar, [BAR] + (d + ([BAR] + extent)))
    ensures Holds(s, bar, [BAR] + d) && Holds(s, bar + 1 + |d| + 1, extent)
    ensures s[bar + 1 + |d|] == BAR && |[BAR] + (d + ([BAR] + extent))| == 1 + |d| + 1 + |extent|
  {
    HoldsParts(s, bar, [BAR], d + ([BAR] + extent));
    HoldsParts(s, bar + 1, d, [BAR] + extent);
    HoldsParts(s, bar + 1 + |d|, [BAR], extent);
    HoldsByte(s, bar + 1 + |d|, [BAR], 0);
    HoldsJoin(s, bar, [BAR], d);
  }

  function Extent(token: Token, loc: Location): seq<Byte>
    requires token.printed ==> loc.Valid()
  {
    if token.printed then Netstring(loc.View()) else Digits(loc.len)
  }

  lemma {:induction false} ExtentRead(s: seq<Byte>, pos: nat, token: Token, loc: Location)
    requires Sized(token, loc) && loc.Origin() != [] && 0 < pos <= |s| && s[pos - 1] == BAR
    requires Holds(s, pos, Extent(token, loc)) && Ends(s, pos + |Extent(token, loc)|)
    ensures ReadExtent(s, pos - 1, loc.Origin(), loc.pos) == Read(ReloadedLocation(token, loc), pos + |Extent(token, loc)|)
  {
    if token.printed {
      NetstringRead(s, pos, loc.View());
    } else {
      LengthRead(s, pos, loc.len);
    }
  }

  /** A position and an extent are read back. */
  lemma {:induction false} PlaceRead(s: seq<Byte>, pos: nat, bar: nat, token: Token, loc: Location, after: nat)
    requires Sized(token, loc) && loc.Origin() != [] && Holds(s, bar, PlaceText(token, loc))
    requires pos == bar || (pos + 1 == bar && s[pos] == SPACE)
    requires Ends(s, bar + |PlaceText(token, loc)|) && after == bar + 1 + |Digits(loc.pos)|
    ensures ReadBarNumber(s, pos) == Read(loc.pos, after) && after <= |s|
    ensures pos + 1 == bar ==> ReadNetstring(s, pos) == (None, pos)
    ensures ReadExtent(s, after, loc.Origin(), loc.pos) == Read(ReloadedLocation(token, loc), bar + |PlaceText(token, loc)|)
  {
    PlaceIs(token, loc);
    PlaceBy(s, pos, bar, token, loc, after, Extent(token, loc));
  }

  lemma PlaceIs(token: Token, loc: Location)
    requires token.printed ==> loc.Valid()
    ensures PlaceText(token, loc) == [BAR] + (Digits(loc.pos) + ([BAR] + Extent(token, loc)))
  {
  }

  lemma {:induction false} PlaceBy(s: seq<Byte>, pos: nat, bar: nat, token: Token, loc: Location, after: nat, extent: seq<Byte>)
    requires Sized(token, loc) && loc.Origin() != [] && extent == Extent(token, loc)
    requires Holds(s, bar, [BAR] + (Digits(loc.pos) + ([BAR] + extent))) && Ends(s, after + 1 + |extent|)
    requires (pos == bar || (pos + 1 == bar && s[pos] == SPACE)) && after == bar + 1 + |Digits(loc.pos)|
    ensures ReadBarNumber(s, pos) == Read(loc.pos, after) && after <= |s|
    ensures pos + 1 == bar ==> ReadNetstring(s, pos) == (None, pos)
    ensures ReadExtent(s, after, loc.Origin(), loc.pos) == Read(ReloadedLocation(token, loc), after + 1 + |extent|)
  {
    PlaceParts(s, bar, Digits(loc.pos), extent);
    BarNumberRead(s, pos, bar, loc.pos);
    ExtentRead(s, after + 1, token, loc);
  }

  /** What the reader knows of the origin of the enclosing node. */
  predicate Encloses(outer: Option<Location>, enclosing: seq<Byte>)
  {
    if outer.None? then enclosing == [] else outer.value.Origin() == enclosing
  }

  /** A location is read back; an origin that was left out is that of the enclosing node. */
  lemma {:induction false} LocationRead(s: seq<Byte>, pos: nat, token: Token, loc: Location, outer: Option<Location>, enclosing: seq<Byte>,
                                         text: seq<Byte>)
    requires Holds(s, pos, text) && Ends(s, pos + |text|)
    requires Sized(token, loc) && Encloses(outer, enclosing) && text == LocationText(token, loc, enclosing)
    ensures ReadLocation(s, pos, token.name, outer) == Read(ReloadedLocation(token, loc), pos + |text|)
  {
    if loc.Origin() != [] {
      PlacedRead(s, pos, token, loc, outer, enclosing, if loc.Origin() != enclosing then Netstring(loc.Origin()) else []);
    } else if token.printed {
      BareTextRead(s, pos, token.name, loc.View(), outer);
    } else {
      NothingMore(s, pos);
    }
  }

  /** A netstring that no position follows is the text of a node without origin. */
  lemma {:induction false} BareTextRead(s: seq<Byte>, pos: nat, name: seq<Byte>, text: seq<Byte>, outer: Option<Location>)
    requires Holds(s, pos, [SPACE] + Netstring(text)) && |text| < SIZE_LIMIT && Ends(s, pos + 1 + |Netstring(text)|)
    ensures ReadLocation(s, pos, name, outer) == Read(Synthetic(text, [], 0, |text|), pos + 1 + |Netstring(text)|)
  {
    NothingMore(s, pos + 1 + |Netstring(text)|);
    SpacedNetstringRead(s, pos, text);
    TextParts(s, pos, name, outer, text, pos + 1 + |Netstring(text)|);
  }

  lemma {:induction false} TextParts(s: seq<Byte>, pos: nat, name: seq<Byte>, outer: Option<Location>, text: seq<Byte>, p: nat)
    requires pos <= |s| && p <= |s| && ReadNetstring(s, pos) == (Some(text), p) && ReadBarNumber(s, p) == Nothing
    ensures ReadLocation(s, pos, name, outer) == Read(Synthetic(text, [], 0, |text|), p)
  {
  }

  /** Where the parts of a location stand. */
  lemma {:induction false} OriginParts(s: seq<Byte>, pos: nat, named: seq<Byte>, place: seq<Byte>)
    requires Holds(s, pos, [SPACE] + (named + place))
    ensures s[pos] == SPACE && Holds(s, pos, [SPACE] + named) && Holds(s, pos + 1 + |named|, place)
    ensures |[SPACE] + (named + place)| == 1 + |named| + |place|
  {
    HoldsParts(s, pos, [SPACE], named + place);
    HoldsByte(s, pos, [SPACE], 0);
    HoldsParts(s, pos + 1, named, place);
    HoldsJoin(s, pos, [SPACE], named);
  }

  lemma {:induction false} LocationParts(s: seq<Byte>, pos: nat, name: seq<Byte>, outer: Option<Location>, text: Option<seq<Byte>>, p: nat,
                                          at: nat, q: nat, r: Reading<Location>)
    requires pos <= |s| && p <= |s| && q <= |s| && ReadNetstring(s, pos) == (text, p) && ReadBarNumber(s, p) == Read(at, q)
    requires ReadExtent(s, q, if text.Some? then text.value else if outer.Some? then outer.value.Origin() else [], at) == r
    ensures ReadLocation(s, pos, name, outer) == r
  {
  }

  lemma {:induction false} PlacedRead(s: seq<Byte>, pos: nat, token: Token, loc: Location, outer: Option<Location>, enclosing: seq<Byte>,
                                       named: seq<Byte>)
    requires Sized(token, loc) && Encloses(outer, enclosing) && loc.Origin() != []
    requires Holds(s, pos, [SPACE] + (named + PlaceText(token, loc))) && Ends(s, pos + |[SPACE] + (named + PlaceText(token, loc))|)
    requires named == if loc.Origin() != enclosing then Netstring(loc.Origin()) else []
    ensures ReadLocation(s, pos, token.name, outer) == Read(ReloadedLocation(token, loc), pos + |[SPACE] + (named + PlaceText(token, loc))|)
  {
    var origin := loc.Origin();
    OriginParts(s, pos, named, PlaceText(token, loc));
    if origin != enclosing {
      NamedRead(s, pos, token, loc, outer, pos + 1 + |named|);
    } else {
      ElidedRead(s, pos, token, loc, outer);
    }
  }

  lemma {:induction false} NamedRead(s: seq<Byte>, pos: nat, token: Token, loc: Location, outer: Option<Location>, bar: nat)
    requires Sized(token, loc) && loc.Origin() != [] && Holds(s, pos, [SPACE] + Netstring(loc.Origin()))
    requires bar == pos + 1 + |Netstring(loc.Origin())| && Holds(s, bar, PlaceText(token, loc)) && Ends(s, bar + |PlaceText(token, loc)|)
    ensures ReadLocation(s, pos, token.name, outer) == Read(ReloadedLocation(token, loc), bar + |PlaceText(token, loc)|)
  {
    var after := bar + 1 + |Digits(loc.pos)|;
    SpacedNetstringRead(s, pos, loc.Origin());
    PlaceRead(s, bar, bar, token, loc, after);
    LocationParts(s, pos, token.name, outer, Some(loc.Origin()), bar, loc.pos, after, ReadExtent(s, after, loc.Origin(), loc.pos));
  }

  lemma {:induction false} ElidedRead(s: seq<Byte>, pos: nat, token: Token, loc: Location, outer: Option<Location>)
    requires Sized(token, loc) && loc.Origin() != [] && Encloses(outer, loc.Origin())
    requires pos < |s| && s[pos] == SPACE && Holds(s, pos + 1, PlaceText(token, loc)) && Ends(s, pos + 1 + |PlaceText(token, loc)|)
    ensures ReadLocation(s, pos, token.name, outer) == Read(ReloadedLocation(token, loc), pos + 1 + |PlaceText(token, loc)|)
  {
    var after := pos + 2 + |Digits(loc.pos)|;
    PlaceRead(s, pos, pos + 1, token, loc, after);
    LocationParts(s, pos, token.name, outer, None, pos, loc.pos, after, ReadExtent(s, after, loc.Origin(), loc.pos));
  }

  // ---------------------------------------------------------------------
  // Nodes
  // ---------------------------------------------------------------------

  /** What stands before a child or before the end of a node. */
  ghost predicate AtTail(s: seq<Byte>, pos: nat)
  {
    Ends(s, pos) && s[RunEnd(s, pos, Blank)] != LBRACE
  }

  lemma {:induction false} LineBreaks(s: seq<Byte>, pos: nat, level: nat, rest: seq<Byte>)
    requires level > 0 && Holds(s, pos, LineText(level) + ([OPEN] + rest))
    ensures AtTail(s, pos) && AfterSpaced(s, pos, CLOSE) == None
    ensures AfterSpaced(s, pos, OPEN) == Some(pos + |LineText(level)| + 1)
  {
    HoldsParts(s, pos, LineText(level), [OPEN] + rest);
    HoldsParts(s, pos + |LineText(level)|, [OPEN], rest);
    HoldsJoin(s, pos, LineText(level), [OPEN]);
    LineEnds(s, pos, level, OPEN);
  }

  /** The written form of nodes, of their heads, of what follows the heads, of locations and of symbol tables. */
  datatype Writer = Writer(text: (Tree, nat, seq<Byte>) -> seq<Byte>, head: (Tree, nat, seq<Byte>) -> seq<Byte>, tail: (Tree, nat, nat) -> seq<Byte>,
                           place: (Token, Location, seq<Byte>) -> seq<Byte>, table: (Tree, nat) -> seq<Byte>)

  function TheWriter(): Writer
  {
    Writer((t: Tree, level: nat, enclosing: seq<Byte>) => if Printable(t) then Text(t, level, enclosing) else [],
           (t: Tree, level: nat, enclosing: seq<Byte>) => if Printable(t) then HeadText(t, level, enclosing) else [],
           (t: Tree, i: nat, level: nat) => if Printable(t) && i <= |t.children| then TailText(t, i, level) else [],
           (token: Token, loc: Location, enclosing: seq<Byte>) => if token.printed ==> loc.Valid() then LocationText(token, loc, enclosing) else [],
           (t: Tree, level: nat) => TableText(t, level))
  }

  ghost predicate Writes(w: Writer)
  {
    && (forall t, level: nat, enclosing {:trigger Text(t, level, enclosing)} ::
         Printable(t) ==> w.text(t, level, enclosing) == Text(t, level, enclosing))
    && (forall t, level: nat, enclosing {:trigger HeadText(t, level, enclosing)} ::
         Printable(t) ==> w.head(t, level, enclosing) == HeadText(t, level, enclosing))
    && (forall t, i: nat, level: nat {:trigger TailText(t, i, level)} ::
         Printable(t) && i <= |t.children| ==> w.tail(t, i, level) == TailText(t, i, level))
    && (forall token: Token, loc: Location, enclosing {:trigger LocationText(token, loc, enclosing)} ::
         (token.printed ==> loc.Valid()) ==> w.place(token, loc, enclosing) == LocationText(token, loc, enclosing))
    && (forall t, level: nat {:trigger TableText(t, level)} :: w.table(t, level) == TableText(t, level))
  }

  lemma {:induction false} TextStep(w: Writer, t: Tree, level: nat, enclosing: seq<Byte>)
    requires Writes(w) && Printable(t)
    ensures w.text(t, level, enclosing) == w.head(t, level, enclosing) + w.tail(t, 0, level + 1)
  {
    TextIs(t, level, enclosing);
    assert w.text(t, level, enclosing) == Text(t, level, enclosing);
    assert w.head(t, level, enclosing) == HeadText(t, level, enclosing);
    assert w.tail(t, 0, level + 1) == TailText(t, 0, level + 1);
  }

  lemma TextIs(t: Tree, level: nat, enclosing: seq<Byte>)
    requires Printable(t)
    ensures Text(t, level, enclosing) == HeadText(t, level, enclosing) + TailText(t, 0, level + 1)
  {
  }

  lemma TailIs(t: Tree, i: nat, level: nat)
    requires Printable(t) && i <= |t.children|
    ensures i < |t.children| ==> Printable(t.children[i])
    ensures TailText(t, i, level) ==
            if i == |t.children| then [CLOSE] else Text(t.children[i], level, t.loc.Origin()) + TailText(t, i + 1, level)
  {
  }

  lemma {:induction false} TailStep(w: Writer, t: Tree, i: nat, level: nat)
    requires Writes(w) && Printable(t) && i <= |t.children|
    ensures w.tail(t, i, level) ==
            if i == |t.children| then [CLOSE] else w.text(t.children[i], level, t.loc.Origin()) + w.tail(t, i + 1, level)
    ensures i < |t.children| ==> Printable(t.children[i])
  {
    TailIs(t, i, level);
    assert w.tail(t, i, level) == TailText(t, i, level);
    if i < |t.children| {
      assert w.text(t.children[i], level, t.loc.Origin()) == Text(t.children[i], level, t.loc.Origin());
      assert w.tail(t, i + 1, level) == TailText(t, i + 1, level);
    }
  }

  lemma {:induction false} TailStarts(w: Writer, s: seq<Byte>, pos: nat, t: Tree, i: nat, level: nat)
    requires Writes(w) && Printable(t) && i <= |t.children| && level > 0 && Holds(s, pos, w.tail(t, i, level))
    ensures AtTail(s, pos)
    ensures AfterSpaced(s, pos, CLOSE) == if i == |t.children| then Some(pos + 1) else None
  {
    TailStep(w, t, i, level);
    if i == |t.children| {
      HoldsByte(s, pos, [CLOSE], 0);
      StopsAt(s, pos, Blank);
    } else {
      HoldsParts(s, pos, w.text(t.children[i], level, t.loc.Origin()), w.tail(t, i + 1, level));
      ChildStarts(w, s, pos, t.children[i], level, t.loc.Origin());
    }
  }

  lemma {:induction false} ChildStarts(w: Writer, s: seq<Byte>, pos: nat, child: Tree, level: nat, enclosing: seq<Byte>)
    requires Writes(w) && Printable(child) && level > 0 && Holds(s, pos, w.text(child, level, enclosing))
    ensures AtTail(s, pos) && AfterSpaced(s, pos, CLOSE) == None
  {
    TextStep(w, child, level, enclosing);
    HoldsParts(s, pos, w.head(child, level, enclosing), w.tail(child, 0, level + 1));
    HeadStarts(w, s, pos, child, level, enclosing, w.head(child, level, enclosing));
  }

  lemma {:induction false} HeadStarts(w: Writer, s: seq<Byte>, pos: nat, t: Tree, level: nat, enclosing: seq<Byte>, head: seq<Byte>)
    requires Holds(s, pos, head) && level > 0
    requires Writes(w) && Printable(t) && head == w.head(t, level, enclosing)
    ensures AtTail(s, pos) && AfterSpaced(s, pos, CLOSE) == None
  {
    HeadStep(w, t, level, enclosing);
    LineBreaks(s, pos, level, t.token.name + (w.place(t.token, t.loc, enclosing) + w.table(t, level)));
  }

  lemma {:induction false} NameStarts(s: seq<Byte>, pos: nat, name: seq<Byte>)
    requires Holds(s, pos, name) && name != [] && Safe(name, 0, Kind.Name)
    requires pos + |name| < |s| && s[pos + |name|] < 128
    ensures RunEnd(s, pos, Blank) == pos
  {
    DecodeWithin(s, pos, name, 0);
  }

  /** Where the parts of a name stand, behind a line of spaces and a bracket. */
  lemma {:induction false} NameParts(s: seq<Byte>, pos: nat, line: seq<Byte>, name: seq<Byte>, rest: seq<Byte>)
    requires Holds(s, pos, line + ([OPEN] + (name + rest)))
    ensures Holds(s, pos, line) && Holds(s, pos + |line| + 1, name) && pos + |line| < |s| && s[pos + |line|] == OPEN
  {
    HoldsParts(s, pos, line, [OPEN] + (name + rest));
    HoldsParts(s, pos + |line|, [OPEN], name + rest);
    HoldsParts(s, pos + |line| + 1, name, rest);
    HoldsByte(s, pos + |line|, [OPEN], 0);
  }

  /** The bracket and the name of a node. */
  lemma {:induction false} NameRead(s: seq<Byte>, pos: nat, line: seq<Byte>, name: seq<Byte>, open: nat)
    requires Holds(s, pos, line) && Safe(line, 0, Blank) && open == pos + |line| < |s| && s[open] == OPEN
    requires Holds(s, open + 1, name) && Safe(name, 0, Kind.Name) && name != []
    requires open + 1 + |name| < |s| && s[open + 1 + |name|] in {SPACE, NEWLINE, CLOSE}
    ensures ReadHead(s, pos) == Read(name, open + 1 + |name|)
  {
    SafeUpTo(s, pos, line, Blank);
    NameStarts(s, open + 1, name);
    SafeUpTo(s, open + 1, name, Kind.Name);
    HoldsSlice(s, open + 1, name);
    HeadIs(s, pos, name, open);
  }

  lemma {:induction false} HeadIs(s: seq<Byte>, pos: nat, name: seq<Byte>, open: nat)
    requires pos <= open && open + 1 + |name| <= |s| && RunEnd(s, pos, Blank) == open && s[open] == OPEN
    requires RunEnd(s, open + 1, Blank) == open + 1 && RunEnd(s, open + 1, Kind.Name) == open + 1 + |name|
    requires s[open + 1..open + 1 + |name|] == name
    ensures ReadHead(s, pos) == Read(name, open + 1 + |name|)
  {
    assert After(s, open, OPEN) == Some(open + 1);
  }

  /** A name is followed by a space or by what ends a head. */
  lemma {:induction false} AfterName(s: seq<Byte>, pos: nat, place: seq<Byte>, token: Token, loc: Location, enclosing: seq<Byte>)
    requires Holds(s, pos, place) && Ends(s, pos + |place|)
    requires (token.printed ==> loc.Valid()) && place == LocationText(token, loc, enclosing)
    ensures pos < |s| && s[pos] in {SPACE, NEWLINE, CLOSE}
  {
    if place != [] {
      HoldsByte(s, pos, place, 0);
    }
  }

  lemma {:induction false} HeadParts(s: seq<Byte>, pos: nat, line: seq<Byte>, name: seq<Byte>, place: seq<Byte>, table: seq<Byte>)
    requires Holds(s, pos, line + ([OPEN] + (name + (place + table))))
    ensures Holds(s, pos + |line| + 1 + |name|, place) && Holds(s, pos + |line| + 1 + |name| + |place|, table)
    ensures |line + ([OPEN] + (name + (place + table)))| == |line| + 1 + |name| + |place| + |table|
  {
    HoldsParts(s, pos, line, [OPEN] + (name + (place + table)));
    HoldsParts(s, pos + |line|, [OPEN], name + (place + table));
    HoldsParts(s, pos + |line| + 1, name, place + table);
    HoldsParts(s, pos + |line| + 1 + |name|, place, table);
  }

  lemma {:induction false} TableRead(s: seq<Byte>, pos: nat, t: Tree, level: nat, table: seq<Byte>)
    requires Holds(s, pos, table) && AtTail(s, pos + |table|)
    requires (t.token.symtab ==> SafeSymbols(t.symbols)) && table == TableText(t, level)
    ensures Ends(s, pos) && SkipTable(s, pos) == pos + |table|
  {
    if t.token.symtab {
      SymbolsSafe(t.symbols, level + 1);
      TableSkipped(s, pos, SymbolsText(t.symbols, level + 1), level + 1);
    }
  }

  // ---------------------------------------------------------------------
  // Whole trees
  // ---------------------------------------------------------------------

  /** The node as it stands when `i` children have come back. */
  function Regrown(t: Tree, i: nat): Tree
    requires Printable(t) && i <= |t.children|
  {
    Node(t.token, ReloadedLocation(t.token, t.loc), NO_SYMBOLS, ReloadedChildren(t, i))
  }

  /** The lexer reads this text. */
  ghost predicate Lexes(lex: Lexer, s: seq<Byte>)
  {
    && Progresses(lex) && lex.size == |s|
    && (forall pos: nat {:trigger ReadHead(s, pos)} :: pos <= |s| ==> lex.head(pos) == ReadHead(s, pos))
    && (forall pos: nat, name, outer {:trigger ReadLocation(s, pos, name, outer)} ::
         pos <= |s| ==> lex.place(pos, name, outer) == ReadLocation(s, pos, name, outer))
    && (forall pos: nat {:trigger SkipTable(s, pos)} :: pos <= |s| ==> lex.table(pos) == SkipTable(s, pos))
    && (forall pos: nat {:trigger AfterSpaced(s, pos, CLOSE)} :: pos <= |s| ==> lex.close(pos) == AfterSpaced(s, pos, CLOSE))
  }

  /** The node has come back: as the result, or as one more child of the node around it. */
  ghost predicate ComesBack(lex: Lexer, tokens: Tokens, end: nat, c: Context, t: Tree, result: Option<Tree>)
    requires Progresses(lex) && end <= lex.size && Printable(t)
  {
    result == match c
      case Top => Some(Reloaded(t))
      case Within(outer, node) => Close(lex, tokens, end, Within(outer, node.(children := node.children + [Reloaded(t)])))
  }

  lemma {:induction false} TailLexed(w: Writer, lex: Lexer, s: seq<Byte>, pos: nat, t: Tree, i: nat, level: nat)
    requires Writes(w) && Lexes(lex, s)
    requires Printable(t) && i <= |t.children| && level > 0 && Holds(s, pos, w.tail(t, i, level))
    ensures pos < |s| && lex.close(pos) == if i == |t.children| then Some(pos + 1) else None
  {
    TailStarts(w, s, pos, t, i, level);
  }

  lemma {:induction false} NameLexed(lex: Lexer, s: seq<Byte>, pos: nat, line: seq<Byte>, open: nat, token: Token)
    requires Lexes(lex, s) && Holds(s, pos, line) && Safe(line, 0, Blank) && open == pos + |line| < |s| && s[open] == OPEN
    requires Holds(s, open + 1, token.name) && Safe(token.name, 0, Kind.Name) && token.name != []
    requires open + 1 + |token.name| < |s| && s[open + 1 + |token.name|] in {SPACE, NEWLINE, CLOSE}
    ensures lex.head(pos) == Read(token.name, open + 1 + |token.name|)
  {
    NameRead(s, pos, line, token.name, open);
  }

  lemma {:induction false} PlaceLexed(w: Writer, lex: Lexer, s: seq<Byte>, pos: nat, token: Token, loc: Location, outer: Option<Location>,
                                       enclosing: seq<Byte>, place: seq<Byte>)
    requires Writes(w) && Lexes(lex, s) && Holds(s, pos, place) && Ends(s, pos + |place|)
    requires Sized(token, loc) && Encloses(outer, enclosing) && place == w.place(token, loc, enclosing)
    ensures lex.place(pos, token.name, outer) == Read(ReloadedLocation(token, loc), pos + |place|)
  {
    assert place == LocationText(token, loc, enclosing);
    LocationRead(s, pos, token, loc, outer, enclosing, place);
  }

  lemma {:induction false} TableLexed(w: Writer, lex: Lexer, s: seq<Byte>, pos: nat, t: Tree, level: nat, table: seq<Byte>)
    requires Writes(w) && Lexes(lex, s) && Holds(s, pos, table) && AtTail(s, pos + |table|)
    requires (t.token.symtab ==> SafeSymbols(t.symbols)) && table == w.table(t, level)
    ensures Ends(s, pos) && lex.table(pos) == pos + |table|
  {
    assert table == TableText(t, level);
    TableRead(s, pos, t, level, table);
  }

  /** The head of a node, and then its children or its end. */
  lemma {:induction false} HeadLexed(w: Writer, lex: Lexer, tokens: Tokens, s: seq<Byte>, pos: nat, t: Tree, level: nat, enclosing: seq<Byte>,
                                      outer: Option<Location>, head: seq<Byte>)
      returns (p: nat, q: nat)
    requires Writes(w) && Lexes(lex, s) && Holds(s, pos, head) && AtTail(s, pos + |head|)
    requires Dumpable(tokens, t) && Printable(t) && Encloses(outer, enclosing) && head == w.head(t, level, enclosing)
    ensures lex.head(pos) == Read(t.token.name, p)
    ensures lex.place(p, t.token.name, outer) == Read(ReloadedLocation(t.token, t.loc), q)
    ensures lex.table(q) == pos + |head|
  {
    HeadStep(w, t, level, enclosing);
    var line := LineText(level);
    AsciiSafe(line, 0, Blank);
    p, q := PartsLexed(w, lex, s, pos, t, level, enclosing, outer, line, w.place(t.token, t.loc, enclosing), w.table(t, level));
  }

  lemma {:induction false} HeadStep(w: Writer, t: Tree, level: nat, enclosing: seq<Byte>)
    requires Writes(w) && Printable(t)
    ensures w.head(t, level, enclosing) ==
            LineText(level) + ([OPEN] + (t.token.name + (w.place(t.token, t.loc, enclosing) + w.table(t, level))))
  {
    assert w.head(t, level, enclosing) == HeadText(t, level, enclosing);
  }

  lemma {:induction false} PartsLexed(w: Writer, lex: Lexer, s: seq<Byte>, pos: nat, t: Tree, level: nat, enclosing: seq<Byte>,
                                       outer: Option<Location>, line: seq<Byte>, place: seq<Byte>, table: seq<Byte>)
      returns (p: nat, q: nat)
    requires Writes(w) && Lexes(lex, s) && Holds(s, pos, line + ([OPEN] + (t.token.name + (place + table)))) && Safe(line, 0, Blank)
    requires AtTail(s, pos + |line| + 1 + |t.token.name| + |place| + |table|)
    requires Safe(t.token.name, 0, Kind.Name) && t.token.name != []
    requires Encloses(outer, enclosing) && Sized(t.token, t.loc) && (t.token.symtab ==> SafeSymbols(t.symbols))
    requires place == w.place(t.token, t.loc, enclosing) && table == w.table(t, level)
    ensures lex.head(pos) == Read(t.token.name, p)
    ensures lex.place(p, t.token.name, outer) == Read(ReloadedLocation(t.token, t.loc), q)
    ensures lex.table(q) == pos + |line| + 1 + |t.token.name| + |place| + |table|
  {
    p := pos + |line| + 1 + |t.token.name|;
    q := p + |place|;
    HeadParts(s, pos, line, t.token.name, place, table);
    TableLexed(w, lex, s, q, t, level, table);
    PlaceLexed(w, lex, s, p, t.token, t.loc, outer, enclosing, place);
    NamedLexed(w, lex, s, pos, line, pos + |line|, t.token, t.loc, enclosing, place, table);
  }

  lemma {:induction false} NamedLexed(w: Writer, lex: Lexer, s: seq<Byte>, pos: nat, line: seq<Byte>, open: nat, token: Token, loc: Location,
                                       enclosing: seq<Byte>, place: seq<Byte>, table: seq<Byte>)
    requires Writes(w) && Lexes(lex, s) && Holds(s, pos, line + ([OPEN] + (token.name + (place + table)))) && Safe(line, 0, Blank)
    requires open == pos + |line| && Safe(token.name, 0, Kind.Name) && token.name != []
    requires Holds(s, open + 1 + |token.name|, place) && Ends(s, open + 1 + |token.name| + |place|)
    requires (token.printed ==> loc.Valid()) && place == w.place(token, loc, enclosing)
    ensures lex.head(pos) == Read(token.name, open + 1 + |token.name|)
  {
    NameParts(s, pos, line, token.name, place + table);
    assert place == LocationText(token, loc, enclosing);
    AfterName(s, open + 1 + |token.name|, place, token, loc, enclosing);
    NameLexed(lex, s, pos, line, open, token);
  }

  lemma {:induction false} RunStep(lex: Lexer, tokens: Tokens, pos: nat, c: Context, token: Token, p: nat, loc: Location, q: nat, end: nat)
    requires Progresses(lex) && pos <= lex.size && token.name in tokens && tokens[token.name] == token
    requires lex.head(pos) == Read(token.name, p) && lex.place(p, token.name, c.Here()) == Read(loc, q) && lex.table(q) == end
    ensures end <= lex.size && Run(lex, tokens, pos, c) == Close(lex, tokens, end, Within(c, Node(token, loc, NO_SYMBOLS, [])))
  {
  }

  /** Reading the head of a node opens it. */
  lemma {:induction false} HeadRuns(w: Writer, lex: Lexer, tokens: Tokens, s: seq<Byte>, pos: nat, t: Tree, level: nat, enclosing: seq<Byte>, c: Context)
    requires Writes(w) && Lexes(lex, s) && Dumpable(tokens, t) && Printable(t) && Encloses(c.Here(), enclosing)
    requires Holds(s, pos, w.head(t, level, enclosing))
    requires Holds(s, pos + |w.head(t, level, enclosing)|, w.tail(t, 0, level + 1))
    ensures Run(lex, tokens, pos, c) == Close(lex, tokens, pos + |w.head(t, level, enclosing)|, Within(c, Regrown(t, 0)))
  {
    var head := w.head(t, level, enclosing);
    TailStarts(w, s, pos + |head|, t, 0, level + 1);
    var p, q := HeadLexed(w, lex, tokens, s, pos, t, level, enclosing, c.Here(), head);
    RunStep(lex, tokens, pos, c, t.token, p, ReloadedLocation(t.token, t.loc), q, pos + |head|);
  }

  lemma {:induction false} LastRuns(lex: Lexer, tokens: Tokens, pos: nat, t: Tree, c: Context)
    requires Progresses(lex) && Printable(t) && pos < lex.size && lex.close(pos) == Some(pos + 1)
    ensures ComesBack(lex, tokens, pos + 1, c, t, Close(lex, tokens, pos, Within(c, Regrown(t, |t.children|))))
  {
  }

  lemma {:induction false} TreeRuns(w: Writer, lex: Lexer, tokens: Tokens, s: seq<Byte>, pos: nat, t: Tree, level: nat, enclosing: seq<Byte>, c: Context)
    requires Writes(w) && Lexes(lex, s) && Dumpable(tokens, t) && Printable(t) && Encloses(c.Here(), enclosing)
    requires Holds(s, pos, w.text(t, level, enclosing))
    ensures ComesBack(lex, tokens, pos + |w.text(t, level, enclosing)|, c, t, Run(lex, tokens, pos, c))
    decreases t, |t.children| + 1
  {
    var head, tail := w.head(t, level, enclosing), w.tail(t, 0, level + 1);
    TextStep(w, t, level, enclosing);
    HoldsParts(s, pos, head, tail);
    HeadRuns(w, lex, tokens, s, pos, t, level, enclosing, c);
    TailRuns(w, lex, tokens, s, pos + |head|, t, 0, level + 1, c);
  }

  lemma {:induction false} TailRuns(w: Writer, lex: Lexer, tokens: Tokens, s: seq<Byte>, pos: nat, t: Tree, i: nat, level: nat, c: Context)
    requires Writes(w) && Lexes(lex, s) && Dumpable(tokens, t) && Printable(t) && i <= |t.children| && level > 0
    requires Holds(s, pos, w.tail(t, i, level))
    ensures ComesBack(lex, tokens, pos + |w.tail(t, i, level)|, c, t, Close(lex, tokens, pos, Within(c, Regrown(t, i))))
    decreases t, |t.children| - i
  {
    TailLexed(w, lex, s, pos, t, i, level);
    TailStep(w, t, i, level);
    if i == |t.children| {
      LastRuns(lex, tokens, pos, t, c);
    } else {
      var text, others := w.text(t.children[i], level, t.loc.Origin()), w.tail(t, i + 1, level);
      HoldsParts(s, pos, text, others);
      ChildRuns(w, lex, tokens, s, pos, t, i, level, c);
      TailRuns(w, lex, tokens, s, pos + |text|, t, i + 1, level, c);
    }
  }

  /** One more child comes back. */
  lemma {:induction false} ChildRuns(w: Writer, lex: Lexer, tokens: Tokens, s: seq<Byte>, pos: nat, t: Tree, i: nat, level: nat, c: Context)
    requires Writes(w) && Lexes(lex, s) && Dumpable(tokens, t) && Printable(t) && i < |t.children| && level > 0
    requires Holds(s, pos, w.text(t.children[i], level, t.loc.Origin())) && lex.close(pos) == None
    ensures Close(lex, tokens, pos, Within(c, Regrown(t, i))) ==
            Close(lex, tokens, pos + |w.text(t.children[i], level, t.loc.Origin())|, Within(c, Regrown(t, i + 1)))
    decreases t, |t.children| - i, 0
  {
    var child := t.children[i];
    assert child in t.children;
    TreeRuns(w, lex, tokens, s, pos, child, level, t.loc.Origin(), Within(c, Regrown(t, i)));
    assert Regrown(t, i).(children := Regrown(t, i).children + [Reloaded(child)]) == Regrown(t, i + 1);
  }

  /** Reloading undoes writing, whatever stands before and after the text. */
  lemma {:induction false} ReloadUndoesWriting(tokens: Tokens, t: Tree, header: seq<Byte>, trailer: seq<Byte>)
    requires Dumpable(tokens, t) && Printable(t)
    ensures TreeAt(tokens, header + Text(t, 0, []) + trailer, |header|) == Some(Reloaded(t))
  {
    var text := Text(t, 0, []);
    var s := header + text + trailer;
    var pos := |header|;
    forall k | 0 <= k < |text|
      ensures HoldsAt(s, pos, text, k)
    {
    }
    LexerProgresses(s);
    TreeRuns(TheWriter(), LexerOf(s), tokens, s, pos, t, 0, [], Top);
  }

  // ---------------------------------------------------------------------
  // What comes back
  // ---------------------------------------------------------------------

  lemma {:induction false} ReloadedView(token: Token, loc: Location)
    requires token.printed ==> loc.Valid()
    ensures ReloadedLocation(token, loc).Origin() == loc.Origin()
    ensures token.printed ==> ReloadedLocation(token, loc).Valid() && ReloadedLocation(token, loc).View() == loc.View()
  {
    if token.printed {
      var v := loc.View();
      assert v[0..][..|v|] == v;
    }
  }

  lemma {:induction false} ReloadedChild(t: Tree, n: nat, i: nat)
    requires Printable(t) && i < n <= |t.children|
    ensures ReloadedChildren(t, n)[i] == Reloaded(t.children[i])
    decreases n
  {
    if i < n - 1 {
      ReloadedChild(t, n - 1, i);
    }
  }

  /** The tree that comes back equals the one that was written. */
  lemma {:induction false} ReloadedEquals(t: Tree)
    requires Printable(t)
    ensures Printable(Reloaded(t)) && Equals(t, Reloaded(t))
    decreases t
  {
    var r := Reloaded(t);
    ReloadedView(t.token, t.loc);
    forall i | 0 <= i < |t.children|
      ensures Printable(r.children[i]) && Equals(t.children[i], r.children[i])
    {
      ReloadedChild(t, |t.children|, i);
      assert t.children[i] in t.children;
      ReloadedEquals(t.children[i]);
    }
  }

  /** Positions come back where they were written: in nodes that have an origin. */
  ghost predicate SamePlaces(a: Tree, b: Tree)
    decreases a
  {
    && a.loc.Origin() == b.loc.Origin() && (a.loc.Origin() != [] ==> a.loc.pos == b.loc.pos && a.loc.len == b.loc.len)
    && |a.children| == |b.children| && forall i :: 0 <= i < |a.children| ==> SamePlaces(a.children[i], b.children[i])
  }

  lemma {:induction false} ReloadedPlaces(t: Tree)
    requires Printable(t)
    ensures SamePlaces(t, Reloaded(t))
    decreases t
  {
    ReloadedView(t.token, t.loc);
    forall i | 0 <= i < |t.children|
      ensures SamePlaces(t.children[i], Reloaded(t).children[i])
    {
      ReloadedChild(t, |t.children|, i);
      assert t.children[i] in t.children;
      ReloadedPlaces(t.children[i]);
    }
  }

  /** Symbol tables are not reloaded; those of a tree without bindings are empty. */
  predicate Unbound(t: Tree)
  {
    (t.token.symtab ==> t.symbols == NO_SYMBOLS) && forall c :: c in t.children ==> Unbound(c)
  }

  lemma {:induction false} SameHead(w: Writer, t: Tree, level: nat, enclosing: seq<Byte>)
    requires Writes(w) && Printable(t) && Unbound(t) && Printable(Reloaded(t))
    ensures w.head(Reloaded(t), level, enclosing) == w.head(t, level, enclosing)
  {
    ReloadedView(t.token, t.loc);
    assert w.head(t, level, enclosing) == HeadText(t, level, enclosing);
    assert w.head(Reloaded(t), level, enclosing) == HeadText(Reloaded(t), level, enclosing);
  }

  lemma {:induction false} SameTail(w: Writer, t: Tree, i: nat, level: nat)
    requires Writes(w) && Printable(t) && Unbound(t) && Printable(Reloaded(t)) && i <= |t.children|
    ensures w.tail(Reloaded(t), i, level) == w.tail(t, i, level)
    decreases t, |t.children| - i
  {
    TailStep(w, t, i, level);
    TailStep(w, Reloaded(t), i, level);
    if i < |t.children| {
      ReloadedChild(t, |t.children|, i);
      assert t.children[i] in t.children;
      ReloadedView(t.token, t.loc);
      SameText(w, t.children[i], level, t.loc.Origin());
      SameTail(w, t, i + 1, level);
    }
  }

  lemma {:induction false} SameText(w: Writer, t: Tree, level: nat, enclosing: seq<Byte>)
    requires Writes(w) && Printable(t) && Unbound(t) && Printable(Reloaded(t))
    ensures w.text(Reloaded(t), level, enclosing) == w.text(t, level, enclosing)
    decreases t, |t.children| + 1
  {
    TextStep(w, t, level, enclosing);
    TextStep(w, Reloaded(t), level, enclosing);
    SameHead(w, t, level, enclosing);
    SameTail(w, t, 0, level + 1);
  }

  /** A reloaded tree is written like the original, if no symbols were bound. */
  lemma {:induction false} WritingSettles(t: Tree)
    requires Printable(t) && Unbound(t) && Printable(Reloaded(t))
    ensures Text(Reloaded(t), 0, []) == Text(t, 0, [])
  {
    var w := TheWriter();
    SameText(w, t, 0, []);
    assert w.text(t, 0, []) == Text(t, 0, []);
    assert w.text(Reloaded(t), 0, []) == Text(Reloaded(t), 0, []);
  }

  lemma {:induction false} EqualsSymmetric(a: Tree, b: Tree)
    requires Printable(a) && Printable(b) && Equals(a, b)
    ensures Equals(b, a)
    decreases a
  {
    forall i | 0 <= i < |a.children|
      ensures Equals(b.children[i], a.children[i])
    {
      assert a.children[i] in a.children && b.children[i] in b.children;
      EqualsSymmetric(a.children[i], b.children[i]);
    }
  }

  lemma {:induction false} EqualsTransitive(a: Tree, b: Tree, c: Tree)
    requires Printable(a) && Printable(b) && Printable(c) && Equals(a, b) && Equals(b, c)
    ensures Equals(a, c)
    decreases a
  {
    forall i | 0 <= i < |a.children|
      ensures Equals(a.children[i], c.children[i])
    {
      assert a.children[i] in a.children && b.children[i] in b.children && c.children[i] in c.children;
      EqualsTransitive(a.children[i], b.children[i], c.children[i]);
    }
  }

  /** Trees that are written alike are equal. */
  lemma SameTextSameTree(tokens: Tokens, a: Tree, b: Tree)
    requires Dumpable(tokens, a) && Dumpable(tokens, b) && Printable(a) && Printable(b)
    requires Text(a, 0, []) == Text(b, 0, [])
    ensures Equals(a, b)
  {
    ReloadUndoesWriting(tokens, a, [], []);
    ReloadUndoesWriting(tokens, b, [], []);
    ReloadedEquals(a);
    ReloadedEquals(b);
    EqualsSymmetric(b, Reloaded(b));
    EqualsTransitive(a, Reloaded(a), b);
  }

  /** Writes a tree behind a header and reloads it. */
  method Dump(tokens: Tokens, t: Tree, header: seq<Byte>) returns (tree: Option<Tree>)
    requires Dumpable(tokens, t)
    ensures Printable(t) && tree.Some? && Printable(tree.value) && Equals(t, tree.value) && SamePlaces(t, tree.value)
    ensures Unbound(t) ==> Text(tree.value, 0, []) == Text(t, 0, [])
  {
    DumpablePrints(tokens, t);
    var text := Str(t, 0);
    assert header + text + [] == header + text;
    ReloadUndoesWriting(tokens, t, header, []);
    ReloadedEquals(t);
    ReloadedPlaces(t);
    if Unbound(t) {
      WritingSettles(t);
    }
    tree := BuildAst(tokens, header + text, |header|);
  }
}
