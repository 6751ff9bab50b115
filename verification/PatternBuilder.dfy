// The pattern scanner: PostfixBuilder and regexp_to_postfix_runes in
// regex_engine.h, a shunting-yard algorithm with an operator stack.

module PatternBuilder {
  import opened Options
  import opened Utf8
  import opened RuneClasses
  import opened RegexSemantics
  import opened Postfix
  import opened Repetition
  import opened ScanMachine
  import opened ClassTable

  datatype Operator = OpCatenation | OpAlternation | OpGroup

  datatype GroupInfo = GroupInfo(postfixIndex: nat, needConcat: bool, capturing: bool, captureId: nat)

  // ---------------------------------------------------------------------
  // How the machine's state is laid out on the stacks
  // ---------------------------------------------------------------------

  ghost function Pending(f: Frame): seq<Operator>
  {
    (if f.alternatives.Some? then [OpAlternation] else []) + (if f.live && f.atom.Some? then [OpCatenation] else [])
  }

  /** The operators of a group whose next piece is being scanned deeper down. */
  ghost function Suspended(f: Frame): seq<Operator>
  {
    (if f.alternatives.Some? then [OpAlternation] else []) + (if f.live then [OpCatenation] else [])
  }

  ghost function OuterOperators(o: Outer): (ops: seq<Operator>)
    ensures ops == [] || ops[|ops| - 1] == OpGroup
  {
    match o
    case Root => []
    case Within(o', f, _) => OuterOperators(o') + Suspended(f) + [OpGroup]
  }

  ghost function OuterGroups(o: Outer): (gs: seq<GroupInfo>)
    ensures |gs| == Depth(o)
  {
    match o
    case Root => []
    case Within(o', f, id) =>
      OuterGroups(o') + [GroupInfo(|Placed(o)|, f.live, id.Some?, if id.Some? then id.value else 0)]
  }

  ghost predicate OuterOk(o: Outer)
  {
    o.Within? ==> o.frame.atom.None? && (!o.frame.live ==> o.frame.before == []) && OuterOk(o.outer)
  }

  ghost function InPlace(f: Frame): seq<Token>
  {
    f.Finished() + f.before + if f.atom.Some? then f.atom.value else []
  }

  /** Popping operators one by one emits their tokens, the topmost first. */
  ghost function Popped(ops: seq<Operator>): seq<Token>
  {
    if ops == [] then []
    else [if ops[|ops| - 1] == OpCatenation then Catenation else Alternation] + Popped(ops[..|ops| - 1])
  }

  /** Flushing a group's operators completes its token stream. */
  lemma {:induction false} FlushCompletes(f: Frame)
    requires f.Ok()
    ensures InPlace(f) + Popped(Pending(f)) == f.Tokens()
  {
    PoppedOne(OpAlternation);
    PoppedOne(OpCatenation);
    PoppedTwo();
    assert Popped([]) == [];
    if f.live && f.atom.Some? {
      assert Pending(f) == if f.alternatives.Some? then [OpAlternation] + [OpCatenation] else [OpCatenation];
    } else {
      assert Pending(f) == if f.alternatives.Some? then [OpAlternation] else [];
    }
  }

  lemma PoppedLast(ops: seq<Operator>, n: nat)
    requires 0 < n <= |ops|
    ensures Popped(ops[..n]) == [if ops[n - 1] == OpCatenation then Catenation else Alternation] + Popped(ops[..n - 1])
  {
    assert ops[..n][..n - 1] == ops[..n - 1];
  }

  lemma PoppedOne(op: Operator)
    ensures Popped([op]) == [if op == OpCatenation then Catenation else Alternation]
  {
    assert Popped([]) == [];
  }

  lemma PoppedTwo()
    ensures Popped([OpAlternation] + [OpCatenation]) == [Catenation] + [Alternation]
  {
    var two := [OpAlternation] + [OpCatenation];
    assert two[..1] == [OpAlternation];
    PoppedOne(OpAlternation);
  }

  /** Whether a catenation waits on top of the operator stack. */
  predicate Waits(f: Frame) { f.live && f.atom.Some? }

  lemma PendingTop(o: Outer, f: Frame)
    ensures var ops := OuterOperators(o) + Pending(f);
            && (ops != [] && ops[|ops| - 1] == OpCatenation <==> Waits(f))
            && (|ops| >= 2 && ops[|ops| - 1] == OpCatenation ==> ops[|ops| - 2] != OpCatenation)
  {
  }

  /** Joining a new piece to the branch: the waiting catenation is emitted and one is pushed. */
  lemma JoinLayout(o: Outer, f: Frame, place: seq<Token>)
    requires f.Ok()
    ensures place + InPlace(f) + (if Waits(f) then [Catenation] else []) == place + (f.Finished() + f.Begin().before)
    ensures f.NeedConcat() ==>
              OuterOperators(o) + Pending(f) + (if Waits(f) then [] else [OpCatenation]) == OuterOperators(o) + Suspended(f.Begin())
    ensures !f.NeedConcat() ==> Pending(f) == Suspended(f.Begin()) && InPlace(f) == f.Finished() + f.Begin().before
  {
  }

  lemma AppendToPlace(place: seq<Token>, a: seq<Token>, b: seq<Token>, c: seq<Token>)
    ensures place + (a + b) + c == place + (a + b + c)
  {
  }

  lemma FlushLayout(place: seq<Token>, f: Frame)
    requires f.Ok()
    ensures place + InPlace(f) + Popped(Pending(f)) == place + f.Tokens()
    ensures forall k :: 0 <= k < |Pending(f)| ==> Pending(f)[k] != OpGroup
  {
    FlushCompletes(f);
    AppendToPlace(place, InPlace(f), [], Popped(Pending(f)));
    assert InPlace(f) + [] == InPlace(f);
  }

  lemma QuantifiedLayout(place: seq<Token>, f: Frame, token: Token)
    requires f.atom.Some?
    ensures var f' := f.(atom := Some(f.atom.value + [token]), quantified := true);
            place + InPlace(f') == place + InPlace(f) + [token] && Pending(f') == Pending(f)
  {
    AppendToPlace(place, f.Finished() + f.before, f.atom.value, [token]);
  }

  function AtomOf(f: Frame, tokens: seq<Token>): Frame
  {
    f.(atom := Some(tokens), quantified := false)
  }

  /** A closed group is an atom of the group around it. */
  lemma ClosePlace(o: Outer, f: Frame, id: Option<nat>, tokens: seq<Token>)
    ensures Placed(Within(o, f, id)) + tokens == Placed(o) + InPlace(AtomOf(f, tokens))
    ensures |Placed(Within(o, f, id))| == |Placed(o)| + |f.Finished()| + |f.before|
  {
    var x := f.Finished() + f.before;
    assert Placed(Within(o, f, id)) == Placed(o) + x;
    assert InPlace(AtomOf(f, tokens)) == x + tokens;
    AppendToPlace(Placed(o), x, [], tokens);
    assert x + [] == x;
  }

  lemma SuspendedAtom(f: Frame, tokens: seq<Token>)
    ensures Pending(AtomOf(f, tokens)) == Suspended(f)
  {
  }

  lemma AtomLayout(place: seq<Token>, f: Frame, tokens: seq<Token>)
    ensures place + (f.Finished() + f.before) + tokens == place + InPlace(f.(atom := Some(tokens), quantified := true))
    ensures f.atom.Some? ==> (place + InPlace(f))[|place| + |f.Finished()| + |f.before|..] == f.atom.value
    ensures f.atom.Some? ==> (place + InPlace(f))[..|place| + |f.Finished()| + |f.before|] == place + (f.Finished() + f.before)
  {
    var x := f.Finished() + f.before;
    AppendToPlace(place, x, [], tokens);
    assert x + [] == x;
    if f.atom.Some? {
      assert place + InPlace(f) == (place + x) + f.atom.value;
    }
  }

  /** Removing the atom takes back the catenation that waits for it. */
  lemma RemovedLayout(o: Outer, f: Frame)
    requires f.atom.Some?
    ensures var ops := OuterOperators(o) + Pending(f);
            var f' := f.(atom := None, quantified := true);
            && OuterOperators(o) + Pending(f') == (if f.live then ops[..|ops| - 1] else ops)
            && (f.live ==> ops != [] && ops[|ops| - 1] == OpCatenation)
            && InPlace(f') == f.Finished() + f.before
  {
  }

  /** An atom of one token is the last token in place. */
  lemma AloneLayout(place: seq<Token>, f: Frame)
    requires f.Ok()
    ensures var q, start := place + InPlace(f), |place| + |f.Finished()| + |f.before|;
            forall t :: f.atom == Some([t]) <==> f.atom.Some? && |q| == start + 1 && q[start] == t
    ensures f.atom.None? ==> |place + InPlace(f)| == |place| + |f.Finished()| + |f.before|
  {
    if f.atom.Some? {
      assert place + InPlace(f) == place + (f.Finished() + f.before) + f.atom.value;
      assert |f.atom.value| == 1 ==> f.atom.value == [f.atom.value[0]];
    }
  }

  lemma MarkGroup(place: seq<Token>, tokens: seq<Token>, id: Option<nat>)
    ensures id.Some? ==> place + tokens + [CaptureGroup(id.value)] == place + (tokens + [CaptureGroup(id.value)])
    ensures place + tokens == place + (tokens + [])
  {
  }

  lemma OpenLayout(o: Outer, f: Frame, id: Option<nat>)
    requires f.Ok() && OuterOk(o)
    ensures var w := Within(o, f.Begin(), id);
            && OuterOk(w)
            && Placed(w) + InPlace(FRESH) == Placed(o) + (f.Finished() + f.Begin().before)
            && OuterOperators(w) + Pending(FRESH) == OuterOperators(o) + Suspended(f.Begin()) + [OpGroup]
  {
  }

  // ---------------------------------------------------------------------
  // The builder
  // ---------------------------------------------------------------------

  class PostfixBuilder {
    const readers: Readers
    var postfix: seq<Token>
    var runeClasses: seq<RuneClass>
    var numCaptures: nat
    var errorCode: ErrorCode
    var operatorStack: seq<Operator>
    var needConcat: bool
    var escaped: bool
    var atomStart: nat
    var needConcatBeforeAtom: bool
    var atomIsQuantified: bool
    var groupStartStack: seq<GroupInfo>

    /** The fields hold the machine state `s`. */
    ghost predicate Represents(s: Scan)
      reads this
    {
      && postfix == Placed(s.outer) + InPlace(s.frame)
      && operatorStack == OuterOperators(s.outer) + Pending(s.frame)
      && groupStartStack == OuterGroups(s.outer)
      && needConcat == s.frame.NeedConcat()
      && (needConcat ==> atomIsQuantified == s.frame.quantified && atomStart == s.AtomStart())
      && (s.frame.atom.Some? ==> needConcatBeforeAtom == s.frame.live)
      && s.frame.Ok() && OuterOk(s.outer)
      && numCaptures == s.captures
      && AllFit(runeClasses, s.classes)
      && escaped == s.escaped
      && errorCode == s.Reported(NoError)
    }

    /** What a handler reports about the step it took. */
    ghost predicate Took(step: Step, ok: bool, pos: nat)
      reads this
    {
      match step
      case To(next, s) => ok && pos == next && Represents(s)
      case Stop(e) => !ok && errorCode == e
    }

    constructor (readers: Readers)
      ensures Represents(START) && this.readers == readers
    {
      this.readers := readers;
      postfix, runeClasses, numCaptures, errorCode := [], [], 0, NoError;
      operatorStack, needConcat, escaped, atomStart := [], false, false, 0;
      needConcatBeforeAtom, atomIsQuantified, groupStartStack := false, false, [];
    }

    method SetError(code: ErrorCode)
      modifies this`errorCode
      ensures errorCode == if old(errorCode) == NoError then code else old(errorCode)
    {
      if errorCode == NoError {
        errorCode := code;
      }
    }

    // -------------------------------------------------------------------
    // Operator stack
    // -------------------------------------------------------------------

    /** Pushes a catenation after emitting the one that waits on top. */
    method PushConcat()
      requires |operatorStack| >= 2 && operatorStack[|operatorStack| - 1] == OpCatenation ==>
                 operatorStack[|operatorStack| - 2] != OpCatenation
      modifies this`postfix, this`operatorStack
      ensures var waits := old(operatorStack) != [] && old(operatorStack)[|old(operatorStack)| - 1] == OpCatenation;
              && postfix == old(postfix) + (if waits then [Catenation] else [])
              && operatorStack == old(operatorStack) + (if waits then [] else [OpCatenation])
    {
      ghost var n := |operatorStack|;
      while operatorStack != [] && operatorStack[|operatorStack| - 1] == OpCatenation
        invariant |operatorStack| <= n && operatorStack == old(operatorStack)[..|operatorStack|]
        invariant |operatorStack| == n ==> postfix == old(postfix)
        invariant |operatorStack| < n ==>
                    |operatorStack| == n - 1 && old(operatorStack)[n - 1] == OpCatenation && postfix == old(postfix) + [Catenation]
        decreases |operatorStack|
      {
        postfix := postfix + [Catenation];
        operatorStack := operatorStack[..|operatorStack| - 1];
      }
      operatorStack := operatorStack + [OpCatenation];
    }

    /** Emits all operators of the innermost group. */
    method FlushGroup(ghost base: seq<Operator>, ghost ops: seq<Operator>)
      requires operatorStack == base + ops
      requires base == [] || base[|base| - 1] == OpGroup
      requires forall k :: 0 <= k < |ops| ==> ops[k] != OpGroup
      modifies this`postfix, this`operatorStack
      ensures operatorStack == base && postfix == old(postfix) + Popped(ops)
    {
      ghost var n := |ops|;
      assert ops[..n] == ops;
      while operatorStack != [] && operatorStack[|operatorStack| - 1] != OpGroup
        invariant 0 <= n <= |ops| && operatorStack == base + ops[..n]
        invariant postfix + Popped(ops[..n]) == old(postfix) + Popped(ops)
        decreases |operatorStack|
      {
        assert n > 0;
        PoppedLast(ops, n);
        assert operatorStack[|operatorStack| - 1] == ops[n - 1];
        postfix := postfix + [if operatorStack[|operatorStack| - 1] == OpCatenation then Catenation else Alternation];
        operatorStack := operatorStack[..|operatorStack| - 1];
        n := n - 1;
      }
      assert n == 0;
    }

    // -------------------------------------------------------------------
    // Atoms
    // -------------------------------------------------------------------

    /** Begins a piece: the catenation that joins it to the branch so far is pushed. */
    method JoinPiece(ghost s: Scan)
      requires Represents(s)
      modifies this`postfix, this`operatorStack
      ensures postfix == Placed(s.outer) + (s.frame.Finished() + s.frame.Begin().before)
      ensures operatorStack == OuterOperators(s.outer) + Suspended(s.frame.Begin())
    {
      PendingTop(s.outer, s.frame);
      JoinLayout(s.outer, s.frame, Placed(s.outer));
      if needConcat {
        PushConcat();
      }
    }

    /** Emits an atom, after the catenation that joins it to the branch so far. */
    method EmitAtom(tag: Operand, ghost s: Scan)
      requires Represents(s)
      modifies this
      ensures Represents(s.Leaf(tag))
    {
      JoinPiece(s);
      AppendToPlace(Placed(s.outer), s.frame.Finished(), s.frame.Begin().before, [Atom(tag)]);
      atomStart := |postfix|;
      needConcatBeforeAtom := needConcat;
      atomIsQuantified := false;
      postfix := postfix + [Atom(tag)];
      needConcat := true;
    }

    method AddClass(c: RuneClass, ghost spec: ClassSpec, ghost s: Scan)
      requires Represents(s) && Fits(c, spec)
      modifies this`runeClasses
      ensures runeClasses == old(runeClasses) + [c] && Represents(s.(classes := s.classes + [spec]))
    {
      AllFitSnoc(runeClasses, s.classes, c, spec);
      runeClasses := runeClasses + [c];
    }

    /** Adds a class to the table and emits a reference to it. */
    method EmitClass(c: RuneClass, ghost spec: ClassSpec, ghost s: Scan)
      requires Represents(s) && Fits(c, spec)
      modifies this
      ensures Represents(s.ClassAtom(spec))
    {
      if |runeClasses| > MAX_CLASS_INDEX {
        SetError(ErrorPatternTooLarge);
        EmitAtom(Class(0), s.(classOverflow := true));
      } else {
        AddClass(c, spec, s);
        EmitAtom(Class(|runeClasses| - 1), s.(classes := s.classes + [spec]));
      }
    }

    method OnDot(ghost s: Scan)
      requires Represents(s)
      modifies this
      ensures Represents(s.ClassAtom(AnyRune))
    {
      var c := AllScalars();
      EmitClass(c, AnyRune, s);
    }

    /** The classes of categories inside brackets take labels of their own. */
    method AddInner(inner: seq<RuneClass>, ghost s: Scan) returns (ok: bool)
      requires Represents(s) && forall j :: 0 <= j < |inner| ==> inner[j].Ready()
      modifies this
      ensures ok <==> inner == [] || |s.classes| + |inner| <= MAX_CLASS_INDEX + 1
      ensures if ok then Represents(s.(classes := s.classes + Givens(inner))) else errorCode == ErrorPatternTooLarge
    {
      assert s.classes + Givens(inner[..0]) == s.classes;
      for j := 0 to |inner|
        invariant |s.classes| + j <= MAX_CLASS_INDEX + 1 || j == 0
        invariant Represents(s.(classes := s.classes + Givens(inner[..j])))
      {
        if |runeClasses| > MAX_CLASS_INDEX {
          SetError(ErrorPatternTooLarge);
          return false;
        }
        ghost var specs := s.classes + Givens(inner[..j]);
        AddClass(inner[j], Given(inner[j]), s.(classes := specs));
        assert s.classes + Givens(inner[..j + 1]) == specs + [Given(inner[j])];
      }
      assert inner[..|inner|] == inner;
      return true;
    }

    /** A class that one of the readers has read. */
    method OnClass(r: ClassRead, pos: nat, ghost s: Scan) returns (ok: bool, next: nat)
      requires Represents(s) && forall j :: 0 <= j < |r.inner| ==> r.inner[j].Ready()
      requires match r case Read(c, _, _) => c.Ready() case Unreadable(e, _) => e != NoError
      modifies this
      ensures Took(ReadClass(s, r, pos), ok, next)
    {
      next := pos;
      ok := AddInner(r.inner, s);
      if !ok {
        return;
      }
      ghost var t := s.(classes := s.classes + Givens(r.inner));
      match r
      case Unreadable(e, _) =>
        SetError(e);
        ok := false;
      case Read(c, width, _) =>
        EmitClass(c, Given(c), t);
        ok, next := errorCode == NoError, pos + width;
    }

    /** An escape that stands for a set of characters. */
    method OnSetEscape(p: seq<Byte>, pos: nat, r: Rune, ghost s: Scan) returns (ok: bool, next: nat)
      requires Represents(s) && readers.Sound() && pos <= |p|
      requires r == 'p' as int || r == 'P' as int || IsShorthand(r) || ('A' as int <= r <= 'Z' as int && IsShorthand(r + 32))
      modifies this
      ensures Took(Escape(readers, p, pos, r, s), ok, next)
    {
      ok, next := true, pos;
      if r == 'p' as int {
        ok, next := OnClass(readers.category(p, pos), pos, s);
      } else if r == 'P' as int {
        ok, next := OnClass(readers.complement(p, pos), pos, s);
      } else if IsShorthand(r) {
        var c := ShorthandClass(r, false);
        EmitClass(c, Shorthand(r, false), s);
      } else {
        var c := ShorthandClass(r + 32, true);
        EmitClass(c, Shorthand(r + 32, true), s);
      }
    }

    /** Two hexadecimal digits. */
    method OnHexEscape(p: seq<Byte>, pos: nat, ghost s: Scan) returns (ok: bool, next: nat)
      requires Represents(s) && pos <= |p|
      modifies this
      ensures Took(match ReadHex(p, pos) case None => Go(s.Fail(ErrorBadEscape), pos) case Some(v) => To(pos + 2, s.Leaf(Lit(v))), ok, next)
    {
      var v := ReadHex(p, pos);
      if v.None? {
        SetError(ErrorBadEscape);
        return false, pos;
      }
      EmitAtom(Lit(v.value), s);
      return true, pos + 2;
    }

    /** The character after a backslash. */
    method OnEscape(p: seq<Byte>, pos: nat, r: Rune, ghost s: Scan) returns (ok: bool, next: nat)
      requires Represents(s) && readers.Sound() && pos <= |p|
      modifies this
      ensures Took(Escape(readers, p, pos, r, s.(escaped := false)), ok, next)
    {
      escaped := false;
      ghost var t := s.(escaped := false);
      if r == 'p' as int || r == 'P' as int || IsShorthand(r) || ('A' as int <= r <= 'Z' as int && IsShorthand(r + 32)) {
        ok, next := OnSetEscape(p, pos, r, t);
      } else if r == 'x' as int {
        ok, next := OnHexEscape(p, pos, t);
      } else if r == 'b' as int {
        EmitAtom(WordBoundary, t);
        ok, next := true, pos;
      } else {
        next := pos;
        ok := OnSingleEscape(r, t);
      }
    }

    method OnSingleEscape(r: Rune, ghost s: Scan) returns (ok: bool)
      requires Represents(s)
      modifies this
      ensures ok <==> EscapeValue(r).Some?
      ensures if ok then Represents(s.Leaf(Lit(EscapeValue(r).value))) else errorCode == s.Reported(ErrorBadEscape)
    {
      if r == 'n' as int {
        EmitAtom(Lit(10), s);
      } else if r == 'r' as int {
        EmitAtom(Lit(13), s);
      } else if r == 't' as int {
        EmitAtom(Lit(9), s);
      } else if IsPunctuation(r) {
        EmitAtom(Lit(r), s);
      } else {
        SetError(ErrorBadEscape);
        return false;
      }
      return true;
    }

    /** A closing bracket or brace without an atom before it. */
    method OnCloser(r: Rune, pos: nat, ghost s: Scan) returns (ok: bool)
      requires Represents(s)
      modifies this
      ensures Took(Closer(r, s, pos), ok, pos)
    {
      if !needConcat {
        EmitAtom(Lit(r), s);
        return true;
      }
      SetError(ErrorStrictSyntax);
      return false;
    }

    // -------------------------------------------------------------------
    // Groups and alternatives
    // -------------------------------------------------------------------

    method OnOpenGroup(capturing: bool, pos: nat, ghost s: Scan) returns (ok: bool)
      requires Represents(s)
      modifies this
      ensures Took(Go(s.Open(capturing), pos), ok, pos)
    {
      JoinPiece(s);
      var id := 0;
      if capturing {
        id := numCaptures;
        numCaptures := numCaptures + 1;
        if numCaptures > MAX_CAPTURES {
          SetError(ErrorTooManyCaptures);
          return false;
        }
      }
      if |groupStartStack| >= MAX_GROUP_NESTING {
        SetError(ErrorNestingTooDeep);
        return false;
      }
      PushGroup(capturing, id, s);
      return true;
    }

    /** Marks the start of a group on both stacks. */
    method PushGroup(capturing: bool, id: nat, ghost s: Scan)
      requires s.frame.Ok() && OuterOk(s.outer) && needConcat == s.frame.NeedConcat()
      requires postfix == Placed(s.outer) + (s.frame.Finished() + s.frame.Begin().before)
      requires operatorStack == OuterOperators(s.outer) + Suspended(s.frame.Begin())
      requires groupStartStack == OuterGroups(s.outer) && AllFit(runeClasses, s.classes)
      requires escaped == s.escaped && errorCode == s.Reported(NoError)
      requires !capturing ==> id == 0
      modifies this`groupStartStack, this`operatorStack, this`needConcat
      ensures Represents(s.(frame := FRESH, captures := numCaptures,
                            outer := Within(s.outer, s.frame.Begin(), if capturing then Some(id) else None)))
    {
      OpenLayout(s.outer, s.frame, if capturing then Some(id) else None);
      groupStartStack := groupStartStack + [GroupInfo(|postfix|, needConcat, capturing, id)];
      operatorStack := operatorStack + [OpGroup];
      needConcat := false;
    }

    method OnCloseGroup(pos: nat, ghost s: Scan) returns (ok: bool)
      requires Represents(s)
      modifies this
      ensures Took(Go(s.Close(), pos), ok, pos)
    {
      FlushLayout(Placed(s.outer), s.frame);
      FlushGroup(OuterOperators(s.outer), Pending(s.frame));
      if operatorStack == [] || groupStartStack == [] {
        SetError(ErrorUnexpectedParen);
        return false;
      }
      PopGroup(s, s.outer.outer, s.outer.frame, s.outer.id);
      return true;
    }

    /** Pops the marker of the innermost group. */
    method TakeGroup(ghost o: Outer, ghost f: Frame, ghost id: Option<nat>) returns (group: GroupInfo)
      requires operatorStack == OuterOperators(Within(o, f, id)) && groupStartStack == OuterGroups(Within(o, f, id))
      modifies this`operatorStack, this`groupStartStack
      ensures operatorStack == OuterOperators(o) + Suspended(f) && groupStartStack == OuterGroups(o)
      ensures group == GroupInfo(|Placed(o)| + |f.Finished()| + |f.before|, f.live, id.Some?, if id.Some? then id.value else 0)
    {
      ghost var below := OuterOperators(o) + Suspended(f);
      assert operatorStack == below + [OpGroup];
      operatorStack := operatorStack[..|operatorStack| - 1];
      group := groupStartStack[|groupStartStack| - 1];
      groupStartStack := groupStartStack[..|groupStartStack| - 1];
    }

    /** The flushed group becomes an atom, marked if it captures. */
    method PopGroup(ghost s: Scan, ghost o: Outer, ghost f: Frame, ghost id: Option<nat>)
      requires s.outer == Within(o, f, id) && OuterOk(s.outer)
      requires operatorStack == OuterOperators(s.outer) && postfix == Placed(s.outer) + s.frame.Tokens()
      requires groupStartStack == OuterGroups(s.outer) && numCaptures == s.captures && AllFit(runeClasses, s.classes)
      requires escaped == s.escaped && errorCode == s.Reported(NoError)
      modifies this
      ensures s.Close().Fine? && Represents(s.Close().scan)
    {
      ghost var tokens := s.frame.Tokens() + if id.Some? then [CaptureGroup(id.value)] else [];
      MarkGroup(Placed(s.outer), s.frame.Tokens(), id);
      ClosePlace(o, f, id, tokens);
      SuspendedAtom(f, tokens);
      var group := TakeGroup(o, f, id);
      if group.capturing {
        postfix := postfix + [CaptureGroup(group.captureId)];
      }
      PlaceAtom(group, s.(frame := f, outer := o), tokens);
    }

    /** What the closed group has left on the stream is the current atom. */
    method PlaceAtom(group: GroupInfo, ghost s: Scan, ghost tokens: seq<Token>)
      requires !s.frame.live ==> s.frame.before == []
      requires postfix == Placed(s.outer) + InPlace(AtomOf(s.frame, tokens))
      requires operatorStack == OuterOperators(s.outer) + Pending(AtomOf(s.frame, tokens))
      requires groupStartStack == OuterGroups(s.outer) && OuterOk(s.outer) && numCaptures == s.captures && AllFit(runeClasses, s.classes)
      requires escaped == s.escaped && errorCode == s.Reported(NoError)
      requires group.postfixIndex == s.AtomStart() && group.needConcat == s.frame.live
      modifies this`atomStart, this`needConcatBeforeAtom, this`atomIsQuantified, this`needConcat
      ensures Represents(s.(frame := AtomOf(s.frame, tokens)))
    {
      atomStart := group.postfixIndex;
      needConcatBeforeAtom := group.needConcat;
      atomIsQuantified := false;
      needConcat := true;
    }

    method OnPipe(ghost s: Scan)
      requires Represents(s)
      modifies this
      ensures Represents(s.Bar())
    {
      FlushLayout(Placed(s.outer), s.frame);
      FlushGroup(OuterOperators(s.outer), Pending(s.frame));
      operatorStack := operatorStack + [OpAlternation];
      needConcat := false;
    }

    // -------------------------------------------------------------------
    // Quantifiers
    // -------------------------------------------------------------------

    /** Appends a quantifier to the atom; an error recorded before shows here. */
    method AppendQuantifier(kind: RepeatKind, lazy: bool, next: nat, ghost s: Scan) returns (ok: bool)
      requires Represents(s) && needConcat && !atomIsQuantified
      modifies this
      ensures Took(Go(s.Quantify(kind, lazy), next), ok, next)
    {
      QuantifiedLayout(Placed(s.outer), s.frame, Quantifier(kind, lazy));
      postfix := postfix + [Quantifier(kind, lazy)];
      atomIsQuantified := true;
      ok := errorCode == NoError;
    }

    method OnQuantifier(kind: RepeatKind, p: seq<Byte>, pos: nat, ghost s: Scan) returns (ok: bool, next: nat)
      requires Represents(s)
      modifies this
      ensures Took(QuantifierSign(kind, p, pos, s), ok, next)
    {
      if !needConcat || atomIsQuantified {
        SetError(ErrorRepeatOp);
        return false, pos;
      }
      var lazy := At(p, pos, '?');
      next := if lazy then pos + 1 else pos;
      ok := AppendQuantifier(kind, lazy, next, s);
    }

    /** The digits at `pos`, in machine arithmetic. */
    method ParseNumber(p: seq<Byte>, pos: nat) returns (n: nat, next: nat)
      requires pos <= |p|
      ensures (n, next) == Number(p, pos, 0)
    {
      n, next := 0, pos;
      while DigitAt(p, next)
        invariant pos <= next <= |p| && Number(p, next, n) == Number(p, pos, 0)
        decreases |p| - next
      {
        n := (n * 10 + (p[next] - '0' as int)) % SIZE_MODULUS;
        next := next + 1;
      }
    }

    method ParseBounds(p: seq<Byte>, pos: nat) returns (r: Option<(Bounds, nat)>)
      requires pos <= |p|
      ensures r == ReadBounds(p, pos)
    {
      if !DigitAt(p, pos) {
        return None;
      }
      var n, q := ParseNumber(p, pos);
      var b, e := Bounds(n, Some(n)), q;
      if At(p, q, ',') {
        b, e := Bounds(n, None), q + 1;
        if DigitAt(p, q + 1) {
          var m;
          m, e := ParseNumber(p, q + 1);
          b := Bounds(n, Some(m));
        }
      }
      if !At(p, e, '}') {
        return None;
      }
      return Some((b, e + 1));
    }

    /** Appends the copies that a repeated atom stands for. */
    method AppendExpansion(atom: seq<Token>, b: Bounds)
      requires b.Ordered() && !b.Removes()
      modifies this`postfix
      ensures postfix == old(postfix) + Expansion(atom, b)
    {
      ghost var place := postfix;
      for i := 0 to b.min
        invariant postfix == place + Copies(atom, i)
      {
        postfix := postfix + atom + if i > 0 then [Catenation] else [];
        assert postfix == place + (Copies(atom, i) + atom + if i > 0 then [Catenation] else []);
      }
      match b.max
      case None =>
        postfix := postfix + atom + [GREEDY_STAR] + if b.min > 0 then [Catenation] else [];
        assert postfix == place + (Copies(atom, b.min) + atom + [GREEDY_STAR] + if b.min > 0 then [Catenation] else []);
      case Some(max) =>
        for i := 0 to max - b.min
          invariant postfix == place + WithOptional(atom, b.min, i)
        {
          ghost var front := WithOptional(atom, b.min, i);
          postfix := postfix + atom + [GREEDY_OPTION] + if b.min > 0 || i > 0 then [Catenation] else [];
          assert postfix == place + (front + atom + [GREEDY_OPTION] + if b.min > 0 || i > 0 then [Catenation] else []);
        }
    }

    /** The atom's tokens are gone; the catenation pushed for it is taken back. */
    method RemoveAtom(ghost s: Scan)
      requires Cut(s)
      modifies this
      ensures Represents(s.(frame := s.frame.(atom := None, quantified := true)))
    {
      RemovedLayout(s.outer, s.frame);
      if needConcatBeforeAtom && operatorStack != [] && operatorStack[|operatorStack| - 1] == OpCatenation {
        operatorStack := operatorStack[..|operatorStack| - 1];
      }
      needConcat := needConcatBeforeAtom;
      atomIsQuantified := true;
    }

    /** Takes the atom's tokens off the stream. */
    method CutAtom(ghost s: Scan) returns (atom: seq<Token>)
      requires Represents(s) && s.frame.atom.Some?
      modifies this`postfix
      ensures atom == s.frame.atom.value && atomStart == s.AtomStart() == |postfix| && Cut(s)
    {
      AtomLayout(Placed(s.outer), s.frame, []);
      atom := postfix[atomStart..];
      postfix := postfix[..atomStart];
    }

    /** As `Represents`, but the tokens of the atom are missing. */
    ghost predicate Cut(s: Scan)
      reads this
    {
      && s.frame.atom.Some? && s.frame.Ok() && OuterOk(s.outer)
      && postfix == Placed(s.outer) + (s.frame.Finished() + s.frame.before)
      && operatorStack == OuterOperators(s.outer) + Pending(s.frame)
      && groupStartStack == OuterGroups(s.outer) && numCaptures == s.captures && AllFit(runeClasses, s.classes)
      && escaped == s.escaped && errorCode == s.Reported(NoError)
      && atomStart == s.AtomStart() && needConcatBeforeAtom == s.frame.live
    }

    /** The copies take the place of the atom. */
    method PutExpansion(atom: seq<Token>, b: Bounds, ghost s: Scan)
      requires Cut(s) && atom == s.frame.atom.value && b.Ordered() && !b.Removes()
      modifies this
      ensures Represents(s.(frame := s.frame.(atom := Some(Expansion(atom, b)), quantified := true)))
      ensures |postfix| == s.AtomStart() + |Expansion(atom, b)|
      ensures errorCode == old(errorCode)
    {
      AtomLayout(Placed(s.outer), s.frame, Expansion(atom, b));
      AppendExpansion(atom, b);
      needConcat := true;
      atomIsQuantified := true;
    }

    /** A counted repetition of the atom, with its bounds checked. */
    method OnRepeat(b: Bounds, next: nat, ghost s: Scan) returns (ok: bool)
      requires Represents(s) && needConcat && !atomIsQuantified
      modifies this
      ensures Took(Go(s.Repeat(b), next), ok, next)
    {
      if b.min > MAX_REPETITION || (b.max.Some? && b.max.value > MAX_REPETITION) || !b.Ordered() {
        SetError(ErrorRepeatSize);
        return false;
      }
      var atom := CutAtom(s);
      var copies := if b.max.Some? then b.max.value else b.min + 1;
      if atomStart + copies * (|atom| + 2) > MAX_POSTFIX_SIZE {
        SetError(ErrorPatternTooLarge);
        return false;
      }
      if b.Removes() {
        RemoveAtom(s);
        return true;
      }
      PutExpansion(atom, b, s);
      if |postfix| > MAX_POSTFIX_SIZE {
        SetError(ErrorPatternTooLarge);
        return false;
      }
      return true;
    }

    method OnOpenBrace(p: seq<Byte>, pos: nat, ghost s: Scan) returns (ok: bool, next: nat)
      requires Represents(s) && pos <= |p|
      modifies this
      ensures Took(Brace(p, pos, s), ok, next)
    {
      AloneLayout(Placed(s.outer), s.frame);
      ok, next := true, pos;
      if !needConcat {
        EmitAtom(Lit('{' as int), s);
        return;
      }
      if !DigitAt(p, pos) && atomStart < |postfix| && |postfix| == atomStart + 1 && postfix[atomStart] == Atom(Lit(BACKSLASH)) {
        EmitAtom(Lit('{' as int), s);
        return;
      }
      if atomIsQuantified {
        SetError(ErrorRepeatOp);
        return false, pos;
      }
      var r := ParseBounds(p, pos);
      if r.None? {
        SetError(ErrorRepeatOp);
        return false, pos;
      }
      next := r.value.1;
      ok := OnRepeat(r.value.0, next, s);
    }

    // -------------------------------------------------------------------
    // The scanning loop
    // -------------------------------------------------------------------

    /** A backslash only announces an escape. */
    method OnBackslash(ghost s: Scan)
      requires Represents(s)
      modifies this`escaped
      ensures Represents(s.(escaped := true))
    {
      escaped := true;
    }

    /** One rune of the pattern and what belongs to it. */
    method Handle(p: seq<Byte>, pos: nat, ghost s: Scan) returns (ok: bool, next: nat)
      requires Represents(s) && readers.Sound() && pos < |p|
      modifies this
      ensures Took(StepAt(readers, p, pos, s), ok, next)
    {
      var d := DecodeRune(p, pos);
      var r := d.rune;
      ok, next := true, pos + d.width;
      ghost var step := StepAt(readers, p, pos, s);
      if escaped {
        assert step == Escape(readers, p, next, r, s.(escaped := false));
        ok, next := OnEscape(p, next, r, s);
      } else if r == BACKSLASH {
        assert step == To(next, s.(escaped := true));
        OnBackslash(s);
      } else {
        assert step == PlainStep(readers, p, next, r, s);
        ok, next := HandlePlain(p, next, r, s);
      }
    }

    method HandlePlain(p: seq<Byte>, pos: nat, r: Rune, ghost s: Scan) returns (ok: bool, next: nat)
      requires Represents(s) && readers.Sound() && pos <= |p| && !s.escaped && r != BACKSLASH
      modifies this
      ensures Took(PlainStep(readers, p, pos, r, s), ok, next)
    {
      ok, next := true, pos;
      if r == '.' as int {
        OnDot(s);
      } else if r == '[' as int {
        ok, next := OnClass(readers.bracket(p, pos), pos, s);
      } else if r == '^' as int {
        EmitAtom(StartAnchor, s);
      } else if r == '$' as int {
        EmitAtom(EndAnchor, s);
      } else if r == ']' as int || r == '}' as int {
        ok := OnCloser(r, pos, s);
      } else if r == '{' as int {
        ok, next := OnOpenBrace(p, pos, s);
      } else if r == '(' as int {
        if At(p, pos, '?') && At(p, pos + 1, ':') {
          next := pos + 2;
          ok := OnOpenGroup(false, next, s);
        } else {
          ok := OnOpenGroup(true, pos, s);
        }
      } else if r == ')' as int {
        ok := OnCloseGroup(pos, s);
      } else if r == '|' as int {
        OnPipe(s);
      } else if r == '*' as int {
        ok, next := OnQuantifier(ZeroOrMore, p, pos, s);
      } else if r == '?' as int {
        ok, next := OnQuantifier(ZeroOrOne, p, pos, s);
      } else if r == '+' as int {
        ok, next := OnQuantifier(OneOrMore, p, pos, s);
      } else {
        EmitAtom(Lit(r), s);
      }
    }

    /** Emits the operators that are left and checks the end of the pattern. */
    method FinishScan(ghost s: Scan) returns (ok: bool)
      requires Represents(s)
      modifies this
      ensures match Finish(Fine(s))
              case Scanned(p, _) => ok && postfix == p && AllFit(runeClasses, s.classes) && numCaptures == s.captures
              case Rejected(e) => !ok && errorCode == e
    {
      FlushLayout(Placed(s.outer), s.frame);
      FlushGroup(OuterOperators(s.outer), Pending(s.frame));
      if operatorStack != [] {
        SetError(ErrorMissingParen);
        return false;
      }
      if escaped {
        SetError(ErrorTrailingBackslash);
        return false;
      }
      if |postfix| > MAX_POSTFIX_SIZE {
        SetError(ErrorPatternTooLarge);
        return false;
      }
      assert Placed(Root) + s.frame.Tokens() == s.frame.Tokens();
      return true;
    }

    /** Scans a whole pattern; what comes out is what the machine computes. */
    method RegexpToPostfix(p: seq<Byte>) returns (ok: bool)
      requires Represents(START) && readers.Sound()
      modifies this
      ensures match Finish(Run(readers, p, 0, START))
              case Scanned(tokens, s) => ok && postfix == tokens && AllFit(runeClasses, s.classes) && numCaptures == s.captures
              case Rejected(e) => !ok && errorCode == e
    {
      var pos := 0;
      ghost var s := START;
      ok := true;
      while pos < |p|
        invariant pos <= |p| && Represents(s)
        invariant Run(readers, p, pos, s) == Run(readers, p, 0, START)
        decreases |p| - pos
      {
        StepMoves(readers, p, pos, s);
        ghost var step := StepAt(readers, p, pos, s);
        ok, pos := Handle(p, pos, s);
        if !ok {
          return;
        }
        s := step.scan;
      }
      ok := FinishScan(s);
    }
  }
}
