// Thompson's construction: postfix_to_nfa and build_quantifier in
// regex_engine.h. States are created one by one and their exits patched
// in place once the continuation is known.

module Thompson {
  import opened RegexSemantics
  import opened Postfix
  import opened Nfa

  const MAX_STATES: nat := 100000

  /** A pointer to the `next` or `next_alt` field of a state. */
  datatype Slot = Slot(state: nat, alt: bool)

  /** An automaton under construction: its entry and its unpatched exits. */
  datatype Frag = Frag(start: nat, dangling: seq<Slot>)

  /** The state `s`, numbered `k`, after the given slots were set to `p`. */
  function SetSlots(s: State, k: nat, slots: seq<Slot>, p: Ptr): State
  {
    State(s.tag, if Slot(k, false) in slots then p else s.next, if Slot(k, true) in slots then p else s.alt)
  }

  /** `h` is `g` with the given slots set to `p`. */
  ghost predicate Filled(g: Graph, h: Graph, slots: seq<Slot>, p: Ptr)
  {
    |h| == |g| && forall k :: 0 <= k < |g| ==> h[k] == SetSlots(g[k], k, slots, p)
  }

  /** The exits of the automaton of `r` in the order the builder collects them. */
  function Holes(r: Regex, lo: nat): (slots: seq<Slot>)
  {
    match r
    case Leaf(_) => [Slot(lo, false)]
    case Concat(a, b) => Holes(b, lo + Size(a))
    case Either(a, b) => Holes(a, lo) + Holes(b, lo + Size(a))
    case Repeat(kind, lazy, a) =>
      var branch := Slot(lo + Size(a), !lazy);
      if kind.ZeroOrOne? then Holes(a, lo) + [branch] else [branch]
    case Group(_, a) => [Slot(lo + Size(a), false)]
  }

  /** Whether a field of state `k` is an exit of the automaton of `r`. */
  ghost predicate IsHole(r: Regex, lo: nat, k: nat, alt: bool)
    requires lo <= k < lo + Size(r)
  {
    match r
    case Leaf(_) => !alt
    case Concat(a, b) => lo + Size(a) <= k && IsHole(b, lo + Size(a), k, alt)
    case Either(a, b) =>
      if k < lo + Size(a) then IsHole(a, lo, k, alt)
      else k < lo + Size(a) + Size(b) && IsHole(b, lo + Size(a), k, alt)
    case Repeat(kind, lazy, a) =>
      if k == lo + Size(a) then alt == !lazy else kind.ZeroOrOne? && IsHole(a, lo, k, alt)
    case Group(_, a) => k == lo + Size(a) && !alt
  }

  lemma {:induction false} HolesAreHoles(r: Regex, lo: nat, s: Slot)
    ensures s in Holes(r, lo) <==> lo <= s.state < lo + Size(r) && IsHole(r, lo, s.state, s.alt)
    decreases r
  {
    match r
    case Leaf(_) =>
    case Concat(a, b) =>
      HolesAreHoles(b, lo + Size(a), s);
    case Either(a, b) =>
      HolesAreHoles(a, lo, s);
      HolesAreHoles(b, lo + Size(a), s);
      assert s in Holes(r, lo) <==> s in Holes(a, lo) || s in Holes(b, lo + Size(a));
    case Repeat(kind, lazy, a) =>
      HolesAreHoles(a, lo, s);
      if kind.ZeroOrOne? {
        assert s in Holes(r, lo) <==> s in Holes(a, lo) || s == Slot(lo + Size(a), !lazy);
      }
    case Group(_, _) =>
  }

  /** `h` is `g` with the exits of the automaton of `r` set to `p`. */
  ghost predicate Patched(g: Graph, h: Graph, r: Regex, lo: nat, p: Ptr)
  {
    lo + Size(r) <= |g| == |h| &&
    forall k :: lo <= k < lo + Size(r) ==> h[k] == PatchedState(g[k], r, lo, k, p)
  }

  ghost function PatchedState(s: State, r: Regex, lo: nat, k: nat, p: Ptr): State
    requires lo <= k < lo + Size(r)
  {
    State(s.tag, if IsHole(r, lo, k, false) then p else s.next, if IsHole(r, lo, k, true) then p else s.alt)
  }

  /** Patching all exits of a fragment connects it to the target. */
  lemma {:induction false} PatchCompiles(g: Graph, h: Graph, r: Regex, lo: nat, p: Ptr)
    requires Compiled(g, r, lo, Null) && Patched(g, h, r, lo, p)
    ensures Compiled(h, r, lo, p)
    decreases r, 1
  {
    if r.Concat? {
      ConcatPatch(g, h, r.left, r.right, lo, p);
    } else if r.Either? {
      EitherPatch(g, h, r.left, r.right, lo, p);
    } else if r.Repeat? && r.kind.ZeroOrOne? {
      PatchCompiles(g, h, r.body, lo, p);
    } else if !r.Leaf? {
      CompiledLocal(g, h, r.body, lo, BodyOut(r, lo, Null));
    }
  }

  lemma {:induction false} ConcatState(s: State, a: Regex, b: Regex, lo: nat, k: nat, p: Ptr)
    requires lo <= k < lo + Size(a) + Size(b)
    ensures PatchedState(s, Concat(a, b), lo, k, p) == if k < lo + Size(a) then s else PatchedState(s, b, lo + Size(a), k, p)
  {
    ConcatHole(a, b, lo, k, false);
    ConcatHole(a, b, lo, k, true);
  }

  lemma {:induction false} ConcatHole(a: Regex, b: Regex, lo: nat, k: nat, alt: bool)
    requires lo <= k < lo + Size(a) + Size(b)
    ensures IsHole(Concat(a, b), lo, k, alt) <==> lo + Size(a) <= k && IsHole(b, lo + Size(a), k, alt)
  {
  }

  /** The exits of a catenation are those of its right operand. */
  lemma {:induction false} ConcatPatched(g: Graph, h: Graph, a: Regex, b: Regex, lo: nat, p: Ptr)
    requires Patched(g, h, Concat(a, b), lo, p)
    ensures Agree(g, h, lo, lo + Size(a)) && Patched(g, h, b, lo + Size(a), p)
  {
    forall k | lo <= k < lo + Size(a) + Size(b)
      ensures h[k] == if k < lo + Size(a) then g[k] else PatchedState(g[k], b, lo + Size(a), k, p)
    {
      ConcatState(g[k], a, b, lo, k, p);
    }
  }

  lemma {:induction false} ConcatPatch(g: Graph, h: Graph, a: Regex, b: Regex, lo: nat, p: Ptr)
    requires Compiled(g, Concat(a, b), lo, Null) && Patched(g, h, Concat(a, b), lo, p)
    ensures Compiled(h, Concat(a, b), lo, p)
    decreases Concat(a, b), 0
  {
    ConcatParts(g, a, b, lo, Null);
    ConcatPatched(g, h, a, b, lo, p);
    CompiledLocal(g, h, a, lo, To(Entry(b, lo + Size(a))));
    PatchCompiles(g, h, b, lo + Size(a), p);
    ConcatParts(h, a, b, lo, p);
  }

  lemma {:induction false} EitherHole(a: Regex, b: Regex, lo: nat, k: nat, alt: bool)
    requires lo <= k <= lo + Size(a) + Size(b)
    ensures IsHole(Either(a, b), lo, k, alt) <==>
            if k < lo + Size(a) then IsHole(a, lo, k, alt)
            else k < lo + Size(a) + Size(b) && IsHole(b, lo + Size(a), k, alt)
  {
  }

  lemma {:induction false} EitherState(s: State, a: Regex, b: Regex, lo: nat, k: nat, p: Ptr)
    requires lo <= k <= lo + Size(a) + Size(b)
    ensures k < lo + Size(a) ==> PatchedState(s, Either(a, b), lo, k, p) == PatchedState(s, a, lo, k, p)
    ensures lo + Size(a) <= k < lo + Size(a) + Size(b) ==>
              PatchedState(s, Either(a, b), lo, k, p) == PatchedState(s, b, lo + Size(a), k, p)
    ensures k == lo + Size(a) + Size(b) ==> PatchedState(s, Either(a, b), lo, k, p) == s
  {
    EitherHole(a, b, lo, k, false);
    EitherHole(a, b, lo, k, true);
  }

  lemma {:induction false} EitherPatched(g: Graph, h: Graph, a: Regex, b: Regex, lo: nat, p: Ptr)
    requires Patched(g, h, Either(a, b), lo, p)
    ensures Patched(g, h, a, lo, p) && Patched(g, h, b, lo + Size(a), p)
    ensures h[lo + Size(a) + Size(b)] == g[lo + Size(a) + Size(b)]
  {
    forall k | lo <= k <= lo + Size(a) + Size(b)
      ensures k < lo + Size(a) ==> h[k] == PatchedState(g[k], a, lo, k, p)
      ensures lo + Size(a) <= k < lo + Size(a) + Size(b) ==> h[k] == PatchedState(g[k], b, lo + Size(a), k, p)
      ensures k == lo + Size(a) + Size(b) ==> h[k] == g[k]
    {
      EitherState(g[k], a, b, lo, k, p);
    }
  }

  lemma {:induction false} EitherPatch(g: Graph, h: Graph, a: Regex, b: Regex, lo: nat, p: Ptr)
    requires Compiled(g, Either(a, b), lo, Null) && Patched(g, h, Either(a, b), lo, p)
    ensures Compiled(h, Either(a, b), lo, p)
    decreases Either(a, b), 0
  {
    var mid := lo + Size(a);
    EitherParts(g, a, b, lo, Null);
    EitherPatched(g, h, a, b, lo, p);
    PatchCompiles(g, h, a, lo, p);
    PatchCompiles(g, h, b, mid, p);
    EitherParts(h, a, b, lo, p);
  }

  /** The fragment of `r` now continues at `p`; every other state is as before. */
  ghost predicate Connected(g: Graph, h: Graph, r: Regex, lo: nat, p: Ptr)
  {
    && |h| == |g|
    && Compiled(h, r, lo, p)
    && Agree(g, h, 0, lo)
    && Agree(g, h, lo + Size(r), |g|)
  }

  lemma {:induction false} HolesInGraph(g: Graph, r: Regex, lo: nat)
    requires lo + Size(r) <= |g|
    ensures forall s :: s in Holes(r, lo) ==> s.state < |g|
  {
    forall s | s in Holes(r, lo)
      ensures s.state < |g|
    {
      HolesAreHoles(r, lo, s);
    }
  }

  /** Filling the collected exits connects the fragment and leaves every other state alone. */
  lemma {:induction false} FillConnects(g: Graph, h: Graph, r: Regex, lo: nat, p: Ptr)
    requires Compiled(g, r, lo, Null) && Filled(g, h, Holes(r, lo), p)
    ensures Connected(g, h, r, lo, p)
  {
    forall k | 0 <= k < |g|
      ensures if lo <= k < lo + Size(r) then h[k] == PatchedState(g[k], r, lo, k, p) else h[k] == g[k]
    {
      HolesAreHoles(r, lo, Slot(k, false));
      HolesAreHoles(r, lo, Slot(k, true));
    }
    PatchCompiles(g, h, r, lo, p);
  }

  // ---------------------------------------------------------------------
  // The operand stack
  // ---------------------------------------------------------------------

  /** The fragment of `r`, with states numbered from `lo`. */
  ghost function FragOf(r: Regex, lo: nat): Frag
  {
    Frag(Entry(r, lo), Holes(r, lo))
  }

  /** The fragment of `r` ends before state `hi`; its exits are unpatched. */
  ghost predicate Topped(g: Graph, frag: Frag, r: Regex, hi: nat)
  {
    Size(r) < hi && frag == FragOf(r, hi - Size(r)) && Compiled(g, r, hi - Size(r), Null)
  }

  /**
   * The first `n` fragments of the stack are those of the operands `rs`, side
   * by side between the accept state and state `hi`.
   */
  ghost predicate Stacked(g: Graph, stack: seq<Frag>, n: nat, rs: OperandStack, hi: nat)
    requires n <= |stack|
    decreases rs, |g|
  {
    match rs
    case Bottom => n == 0 && hi == 1
    case Push(below, r) => n > 0 && Topped(g, stack[n - 1], r, hi) && Stacked(g, stack, n - 1, below, hi - Size(r))
  }

  lemma {:induction false} StackedTop(g: Graph, stack: seq<Frag>, n: nat, rs: OperandStack, r: Regex, hi: nat)
    requires n <= |stack|
    ensures Stacked(g, stack, n, Push(rs, r), hi) <==>
            n > 0 && Topped(g, stack[n - 1], r, hi) && Stacked(g, stack, n - 1, rs, hi - Size(r))
  {
  }

  lemma {:induction false} StackedTopTwo(g: Graph, stack: seq<Frag>, n: nat, rs: OperandStack, a: Regex, b: Regex, hi: nat)
    requires n <= |stack| && Stacked(g, stack, n, Push(Push(rs, a), b), hi)
    ensures n >= 2 && Topped(g, stack[n - 1], b, hi) && Topped(g, stack[n - 2], a, hi - Size(b))
    ensures Stacked(g, stack, n - 2, rs, hi - Size(b) - Size(a))
  {
    StackedTop(g, stack, n, Push(rs, a), b, hi);
    StackedTop(g, stack, n - 1, rs, a, hi - Size(b));
  }

  lemma {:induction false} StackedEmpty(g: Graph, stack: seq<Frag>, n: nat, rs: OperandStack, hi: nat)
    requires n <= |stack| && Stacked(g, stack, n, rs, hi)
    ensures hi >= 1 && (n == 0 <==> rs.Bottom?)
  {
  }

  /** The number of fragments tells how many operands there are, up to two. */
  lemma {:induction false} StackedDepth(g: Graph, stack: seq<Frag>, n: nat, rs: OperandStack, hi: nat)
    requires n <= |stack| && Stacked(g, stack, n, rs, hi)
    ensures n == 0 <==> rs.Bottom?
    ensures n >= 2 <==> rs.Push? && rs.below.Push?
  {
    if rs.Push? {
      StackedTop(g, stack, n, rs.below, rs.top, hi);
      StackedEmpty(g, stack, n - 1, rs.below, hi - Size(rs.top));
    }
  }

  /** Only the fragments and their states matter. */
  lemma {:induction false} StackedLocal(g: Graph, h: Graph, stack: seq<Frag>, stack': seq<Frag>, n: nat, rs: OperandStack, hi: nat)
    requires n <= |stack| && n <= |stack'| && forall k :: 0 <= k < n ==> stack'[k] == stack[k]
    requires Stacked(g, stack, n, rs, hi) && Agree(g, h, 0, hi)
    ensures Stacked(h, stack', n, rs, hi)
    decreases rs
  {
    match rs
    case Bottom =>
    case Push(below, r) =>
      StackedTop(g, stack, n, below, r, hi);
      CompiledLocal(g, h, r, hi - Size(r), Null);
      StackedLocal(g, h, stack, stack', n - 1, below, hi - Size(r));
      StackedTop(h, stack', n, below, r, hi);
  }

  /** The fragments from `n` on are replaced by one that is built on top of the others. */
  lemma {:induction false} StackedPush(g: Graph, h: Graph, stack: seq<Frag>, n: nat, rs: OperandStack, frag: Frag, r: Regex, lo: nat)
    requires n <= |stack| && Stacked(g, stack, n, rs, lo) && Agree(g, h, 0, lo)
    requires frag == FragOf(r, lo) && Compiled(h, r, lo, Null)
    ensures Stacked(h, stack[..n] + [frag], n + 1, Push(rs, r), lo + Size(r))
  {
    var after := stack[..n] + [frag];
    StackedEmpty(g, stack, n, rs, lo);
    StackedLocal(g, h, stack, after, n, rs, lo);
    StackedTop(h, after, n + 1, rs, r, lo + Size(r));
  }

  // ---------------------------------------------------------------------
  // One more construct
  // ---------------------------------------------------------------------

  /** The right operand of a catenation stays; the left one continues there. */
  lemma {:induction false} CatenationBuilt(g: Graph, h: Graph, left: Frag, right: Frag, a: Regex, b: Regex, lo: nat)
    requires |g| == lo + Size(a) + Size(b) && Topped(g, right, b, |g|)
    requires left == FragOf(a, lo) && Connected(g, h, a, lo, To(right.start))
    ensures Compiled(h, Concat(a, b), lo, Null) && Agree(g, h, 0, lo)
    ensures Frag(left.start, right.dangling) == FragOf(Concat(a, b), lo)
  {
    CompiledLocal(g, h, b, lo + Size(a), Null);
    ConcatParts(h, a, b, lo, Null);
  }

  /** A split in front of both operands of an alternation. */
  lemma {:induction false} AlternationBuilt(g: Graph, h: Graph, left: Frag, right: Frag, a: Regex, b: Regex, lo: nat)
    requires |g| == lo + Size(a) + Size(b) && Topped(g, right, b, |g|) && Topped(g, left, a, lo + Size(a))
    requires h == g + [State(Split, To(left.start), To(right.start))]
    ensures Compiled(h, Either(a, b), lo, Null) && Agree(g, h, 0, lo)
    ensures Frag(|g|, left.dangling + right.dangling) == FragOf(Either(a, b), lo)
  {
    OperandsKept(g, h, a, b, lo);
    EitherParts(h, a, b, lo, Null);
    AlternationFrag(left, right, a, b, lo);
  }

  lemma {:induction false} OperandsKept(g: Graph, h: Graph, a: Regex, b: Regex, lo: nat)
    requires Compiled(g, a, lo, Null) && Compiled(g, b, lo + Size(a), Null) && |g| == lo + Size(a) + Size(b)
    requires Agree(g, h, lo, |g|) && |h| > |g|
    ensures Compiled(h, a, lo, Null) && Compiled(h, b, lo + Size(a), Null)
  {
    AgreeParts(g, h, lo, lo + Size(a), |g|);
    CompiledLocal(g, h, a, lo, Null);
    CompiledLocal(g, h, b, lo + Size(a), Null);
  }

  lemma {:induction false} AlternationFrag(left: Frag, right: Frag, a: Regex, b: Regex, lo: nat)
    requires left == FragOf(a, lo) && right == FragOf(b, lo + Size(a))
    ensures Frag(lo + Size(a) + Size(b), left.dangling + right.dangling) == FragOf(Either(a, b), lo)
  {
  }

  /** The fragment a quantifier leaves when its split is state `split`. */
  function QuantifierFrag(split: nat, operand: Frag, kind: RepeatKind, lazy: bool): Frag
  {
    var branch := Slot(split, !lazy);
    match kind
    case ZeroOrOne => Frag(split, operand.dangling + [branch])
    case ZeroOrMore => Frag(split, [branch])
    case OneOrMore => Frag(operand.start, [branch])
  }

  /** The split is appended to the states; loops then patch the body's exits to it. */
  ghost predicate QuantifierGraph(g: Graph, h: Graph, operand: Frag, kind: RepeatKind, lazy: bool)
  {
    var mid := g + [SplitState(lazy, To(operand.start), Null)];
    if kind.ZeroOrOne? then h == mid else Filled(mid, h, operand.dangling, To(|g|))
  }

  lemma {:induction false} SplitFrag(a: Regex, lo: nat, kind: RepeatKind, lazy: bool)
    ensures QuantifierFrag(lo + Size(a), FragOf(a, lo), kind, lazy) == FragOf(Repeat(kind, lazy, a), lo)
  {
  }

  lemma {:induction false} QuantifierCompiled(g: Graph, h: Graph, a: Regex, lo: nat, kind: RepeatKind, lazy: bool)
    requires Compiled(g, a, lo, Null) && |g| == lo + Size(a)
    requires QuantifierGraph(g, h, FragOf(a, lo), kind, lazy)
    ensures |h| == |g| + 1 && Agree(g, h, 0, lo)
    ensures Compiled(h, Repeat(kind, lazy, a), lo, Null)
    ensures QuantifierFrag(|g|, FragOf(a, lo), kind, lazy) == FragOf(Repeat(kind, lazy, a), lo)
  {
    SplitFrag(a, lo, kind, lazy);
    var mid := g + [SplitState(lazy, To(Entry(a, lo)), Null)];
    CompiledLocal(g, mid, a, lo, Null);
    if !kind.ZeroOrOne? {
      FillConnects(mid, h, a, lo, To(|g|));
    }
  }

  /** States around the operand of a group that record where it begins and ends. */
  lemma {:induction false} GroupBuilt(g: Graph, mid: Graph, h: Graph, operand: Frag, a: Regex, lo: nat, id: nat)
    requires |g| == lo + Size(a) && operand == FragOf(a, lo)
    requires Connected(g + [State(CaptureClose(id), Null, Null)], mid, a, lo, To(|g|))
    requires h == mid + [State(CaptureOpen(id), To(operand.start), Null)]
    ensures |h| == |g| + 2 && Agree(g, h, 0, lo)
    ensures Compiled(h, Group(id, a), lo, Null)
    ensures Frag(|g| + 1, [Slot(|g|, false)]) == FragOf(Group(id, a), lo)
  {
    CompiledLocal(mid, h, a, lo, To(|g|));
  }

  // ---------------------------------------------------------------------
  // The stack after one token
  // ---------------------------------------------------------------------

  lemma {:induction false} AfterCatenation(g: Graph, h: Graph, stack: seq<Frag>, n: nat, rs: OperandStack, a: Regex, b: Regex,
                                           left: Frag, right: Frag, lo: nat)
    requires n <= |stack| && Stacked(g, stack, n, rs, lo) && lo + Size(a) + Size(b) == |g|
    requires Topped(g, left, a, lo + Size(a)) && Topped(g, right, b, |g|)
    requires Connected(g, h, a, lo, To(right.start))
    ensures Stacked(h, stack[..n] + [Frag(left.start, right.dangling)], n + 1, Push(rs, Concat(a, b)), |h|)
  {
    CatenationBuilt(g, h, left, right, a, b, lo);
    StackedPush(g, h, stack, n, rs, Frag(left.start, right.dangling), Concat(a, b), lo);
  }

  lemma {:induction false} AfterAlternation(g: Graph, h: Graph, stack: seq<Frag>, n: nat, rs: OperandStack, a: Regex, b: Regex,
                                            left: Frag, right: Frag, lo: nat)
    requires n <= |stack| && Stacked(g, stack, n, rs, lo) && lo + Size(a) + Size(b) == |g|
    requires Topped(g, left, a, lo + Size(a)) && Topped(g, right, b, |g|)
    requires h == g + [State(Split, To(left.start), To(right.start))]
    ensures Stacked(h, stack[..n] + [Frag(|g|, left.dangling + right.dangling)], n + 1, Push(rs, Either(a, b)), |h|)
  {
    AlternationBuilt(g, h, left, right, a, b, lo);
    StackedPush(g, h, stack, n, rs, Frag(|g|, left.dangling + right.dangling), Either(a, b), lo);
  }

  lemma {:induction false} AfterGroup(g: Graph, mid: Graph, h: Graph, stack: seq<Frag>, n: nat, rs: OperandStack, a: Regex, id: nat,
                                      operand: Frag, lo: nat)
    requires n <= |stack| && Stacked(g, stack, n, rs, lo) && lo + Size(a) == |g| && Topped(g, operand, a, |g|)
    requires Connected(g + [State(CaptureClose(id), Null, Null)], mid, a, lo, To(|g|))
    requires h == mid + [State(CaptureOpen(id), To(operand.start), Null)]
    ensures Stacked(h, stack[..n] + [Frag(|g| + 1, [Slot(|g|, false)])], n + 1, Push(rs, Group(id, a)), |h|)
  {
    GroupBuilt(g, mid, h, operand, a, lo, id);
    StackedPush(g, h, stack, n, rs, Frag(|g| + 1, [Slot(|g|, false)]), Group(id, a), lo);
  }

  lemma {:induction false} AfterQuantifier(g: Graph, h: Graph, stack: seq<Frag>, n: nat, rs: OperandStack, a: Regex, kind: RepeatKind, lazy: bool,
                                           frag: Frag, lo: nat)
    requires n <= |stack| && Stacked(g, stack, n, rs, lo) && lo + Size(a) == |g| && |h| == |g| + 1
    requires Agree(g, h, 0, lo) && Compiled(h, Repeat(kind, lazy, a), lo, Null) && frag == FragOf(Repeat(kind, lazy, a), lo)
    ensures Stacked(h, stack[..n] + [frag], n + 1, Push(rs, Repeat(kind, lazy, a)), |h|)
  {
    StackedPush(g, h, stack, n, rs, frag, Repeat(kind, lazy, a), lo);
  }

  // ---------------------------------------------------------------------
  // The builder
  // ---------------------------------------------------------------------

  class NfaBuilder {
    var ownedStates: Graph
    const capacity: nat
    var errorCode: ErrorCode
    const acceptState: nat := 0

    /** Two states per token and the accept state fit the reserved storage. */
    constructor (postfixSize: nat)
      ensures ownedStates == [State(Match, Null, Null)]
      ensures capacity == 2 * postfixSize + 1
      ensures errorCode == NoError
    {
      capacity := 2 * postfixSize + 1;
      ownedStates := [State(Match, Null, Null)];
      errorCode := NoError;
    }

    /** The first error sticks. */
    method SetError(code: ErrorCode)
      modifies this`errorCode
      ensures errorCode == if old(errorCode) == NoError then code else old(errorCode)
    {
      if errorCode == NoError {
        errorCode := code;
      }
    }

    method CreateState(tag: Label, next: Ptr, alt: Ptr) returns (id: nat)
      modifies this
      ensures if |old(ownedStates)| >= capacity then
                id == acceptState && ownedStates == old(ownedStates) && errorCode != NoError
              else
                id == |old(ownedStates)| && ownedStates == old(ownedStates) + [State(tag, next, alt)] &&
                errorCode == old(errorCode)
    {
      if |ownedStates| >= capacity {
        SetError(ErrorInternalError);
        return acceptState;
      }
      id := |ownedStates|;
      ownedStates := ownedStates + [State(tag, next, alt)];
    }

    method Patch(targets: seq<Slot>, target: nat)
      requires forall s :: s in targets ==> s.state < |ownedStates|
      modifies this`ownedStates
      ensures Filled(old(ownedStates), ownedStates, targets, To(target))
    {
      for i := 0 to |targets|
        invariant Filled(old(ownedStates), ownedStates, targets[..i], To(target))
      {
        var s := targets[i];
        var state := ownedStates[s.state];
        ownedStates := ownedStates[s.state := if s.alt then state.(alt := To(target)) else state.(next := To(target))];
        assert targets[..i + 1] == targets[..i] + [s];
      }
      assert targets[..|targets|] == targets;
    }

    /** The stack holds the fragments of the operands `rs`, and no state is left over. */
    ghost predicate Holds(stack: seq<Frag>, rs: OperandStack)
      reads this
    {
      errorCode == NoError && Stacked(ownedStates, stack, |stack|, rs, |ownedStates|)
    }

    method BuildQuantifier(stack: seq<Frag>, kind: RepeatKind, lazy: bool, ghost rs: OperandStack, ghost a: Regex)
      returns (result: seq<Frag>)
      requires Holds(stack, Push(rs, a)) && |ownedStates| < capacity
      modifies this
      ensures Holds(result, Push(rs, Repeat(kind, lazy, a)))
      ensures |ownedStates| == |old(ownedStates)| + 1 && ownedStates[0] == old(ownedStates[0])
    {
      ghost var g, lo := ownedStates, |ownedStates| - Size(a);
      StackedTop(g, stack, |stack|, rs, a, |g|);
      var operand := stack[|stack| - 1];
      var frag := AddSplit(operand, kind, lazy, a);
      AfterQuantifier(g, ownedStates, stack, |stack| - 1, rs, a, kind, lazy, frag, lo);
      result := stack[..|stack| - 1] + [frag];
    }

    /** The split of a quantifier, and the patches that close a loop. */
    method AddSplit(operand: Frag, kind: RepeatKind, lazy: bool, ghost a: Regex) returns (frag: Frag)
      requires Topped(ownedStates, operand, a, |ownedStates|) && |ownedStates| < capacity && errorCode == NoError
      modifies this
      ensures errorCode == NoError && |ownedStates| == |old(ownedStates)| + 1
      ensures var lo := |old(ownedStates)| - Size(a);
              && Agree(old(ownedStates), ownedStates, 0, lo)
              && Compiled(ownedStates, Repeat(kind, lazy, a), lo, Null)
              && frag == FragOf(Repeat(kind, lazy, a), lo)
    {
      ghost var lo := |ownedStates| - Size(a);
      HolesInGraph(ownedStates, a, lo);
      var state: nat;
      if lazy {
        state := CreateState(Split, Null, To(operand.start));
      } else {
        state := CreateState(Split, To(operand.start), Null);
      }
      var branch := Slot(state, !lazy);
      match kind {
        case ZeroOrOne =>
          frag := Frag(state, operand.dangling + [branch]);
        case ZeroOrMore =>
          Patch(operand.dangling, state);
          frag := Frag(state, [branch]);
        case OneOrMore =>
          Patch(operand.dangling, state);
          frag := Frag(operand.start, [branch]);
      }
      QuantifierCompiled(old(ownedStates), ownedStates, a, lo, kind, lazy);
    }

    method BuildAtom(stack: seq<Frag>, tag: Operand, ghost rs: OperandStack) returns (result: seq<Frag>)
      requires Holds(stack, rs) && |ownedStates| < capacity
      modifies this
      ensures |ownedStates| == |old(ownedStates)| + 1 && ownedStates[0] == old(ownedStates[0])
      ensures Holds(result, Push(rs, Leaf(tag)))
    {
      ghost var g := ownedStates;
      var state := CreateState(tag, Null, Null);
      StackedPush(g, ownedStates, stack, |stack|, rs, Frag(state, [Slot(state, false)]), Leaf(tag), |g|);
      assert stack[..|stack|] == stack;
      result := stack + [Frag(state, [Slot(state, false)])];
    }

    method BuildCatenation(stack: seq<Frag>, ghost rs: OperandStack, ghost a: Regex, ghost b: Regex) returns (result: seq<Frag>)
      requires Holds(stack, Push(Push(rs, a), b))
      modifies this
      ensures Holds(result, Push(rs, Concat(a, b)))
      ensures |ownedStates| == |old(ownedStates)| && ownedStates[0] == old(ownedStates[0])
    {
      StackedTopTwo(ownedStates, stack, |stack|, rs, a, b, |ownedStates|);
      ghost var lo := |ownedStates| - Size(b) - Size(a);
      var right, left := stack[|stack| - 1], stack[|stack| - 2];
      PatchFragment(left.dangling, right.start, a, lo);
      AfterCatenation(old(ownedStates), ownedStates, stack, |stack| - 2, rs, a, b, left, right, lo);
      result := stack[..|stack| - 2] + [Frag(left.start, right.dangling)];
    }

    method BuildAlternation(stack: seq<Frag>, ghost rs: OperandStack, ghost a: Regex, ghost b: Regex) returns (result: seq<Frag>)
      requires Holds(stack, Push(Push(rs, a), b)) && |ownedStates| < capacity
      modifies this
      ensures Holds(result, Push(rs, Either(a, b)))
      ensures |ownedStates| == |old(ownedStates)| + 1 && ownedStates[0] == old(ownedStates[0])
    {
      StackedTopTwo(ownedStates, stack, |stack|, rs, a, b, |ownedStates|);
      ghost var lo := |ownedStates| - Size(b) - Size(a);
      var right, left := stack[|stack| - 1], stack[|stack| - 2];
      var state := CreateState(Split, To(left.start), To(right.start));
      AfterAlternation(old(ownedStates), ownedStates, stack, |stack| - 2, rs, a, b, left, right, lo);
      result := stack[..|stack| - 2] + [Frag(state, left.dangling + right.dangling)];
    }

    method BuildGroup(stack: seq<Frag>, id: nat, ghost rs: OperandStack, ghost a: Regex) returns (result: seq<Frag>)
      requires Holds(stack, Push(rs, a)) && |ownedStates| + 2 <= capacity
      modifies this
      ensures Holds(result, Push(rs, Group(id, a)))
      ensures |ownedStates| == |old(ownedStates)| + 2 && ownedStates[0] == old(ownedStates[0])
    {
      ghost var g, lo := ownedStates, |ownedStates| - Size(a);
      StackedTop(g, stack, |stack|, rs, a, |g|);
      var operand := stack[|stack| - 1];
      var close := CreateState(CaptureClose(id), Null, Null);
      CompiledLocal(g, ownedStates, a, lo, Null);
      PatchFragment(operand.dangling, close, a, lo);
      ghost var mid := ownedStates;
      var open := CreateState(CaptureOpen(id), To(operand.start), Null);
      AfterGroup(g, mid, ownedStates, stack, |stack| - 1, rs, a, id, operand, lo);
      result := stack[..|stack| - 1] + [Frag(open, [Slot(close, false)])];
    }

    /** Patches a fragment's exits to `target`. */
    method PatchFragment(targets: seq<Slot>, target: nat, ghost a: Regex, ghost lo: nat)
      requires Compiled(ownedStates, a, lo, Null) && targets == Holes(a, lo)
      modifies this`ownedStates
      ensures Connected(old(ownedStates), ownedStates, a, lo, To(target))
    {
      HolesInGraph(ownedStates, a, lo);
      Patch(targets, target);
      FillConnects(old(ownedStates), ownedStates, a, lo, To(target));
    }

    /** One token: pops its operands' fragments and pushes the combined one. */
    method BuildToken(stack: seq<Frag>, token: Token, ghost rs: OperandStack) returns (result: seq<Frag>)
      requires Holds(stack, rs) && |ownedStates| + 2 <= capacity
      modifies this
      ensures match Reduce(Operands(rs), token)
              case Malformed(e) => errorCode == e
              case Operands(post) => Holds(result, post) && |ownedStates| <= |old(ownedStates)| + 2
      ensures |ownedStates| > 0 && ownedStates[0] == old(ownedStates[0])
    {
      StackedDepth(ownedStates, stack, |stack|, rs, |ownedStates|);
      match token {
        case Catenation =>
          if |stack| < 2 {
            SetError(ErrorInternalError);
            return stack;
          }
          result := BuildCatenation(stack, rs.below.below, rs.below.top, rs.top);
        case Alternation =>
          if |stack| < 2 {
            SetError(ErrorInternalError);
            return stack;
          }
          result := BuildAlternation(stack, rs.below.below, rs.below.top, rs.top);
        case Quantifier(kind, lazy) =>
          if stack == [] {
            SetError(ErrorRepeatOp);
            return stack;
          }
          result := BuildQuantifier(stack, kind, lazy, rs.below, rs.top);
        case CaptureGroup(id) =>
          if stack == [] {
            SetError(ErrorInternalError);
            return stack;
          }
          result := BuildGroup(stack, id, rs.below, rs.top);
        case Atom(tag) =>
          result := BuildAtom(stack, tag, rs);
      }
    }

    /**
     * Builds the automaton of a token stream. It succeeds exactly when the
     * stream is within bounds and leaves one operand, and the states are then
     * the automaton of that operand.
     */
    method PostfixToNfa(postfix: seq<Token>) returns (start: nat)
      requires ownedStates == [State(Match, Null, Null)] && errorCode == NoError
      requires capacity == 2 * |postfix| + 1
      modifies this
      ensures postfix == [] ==> errorCode == NoError && start == acceptState && ownedStates == old(ownedStates)
      ensures |postfix| > MAX_STATES ==> errorCode == ErrorPatternTooLarge
      ensures 0 < |postfix| <= MAX_STATES ==>
                match ReduceAll(Operands(Bottom), postfix)
                case Malformed(e) => errorCode == e
                case Operands(Push(Bottom, r)) =>
                  && errorCode == NoError
                  && start == Entry(r, 1)
                  && |ownedStates| == 1 + Size(r)
                  && ownedStates[acceptState] == State(Match, Null, Null)
                  && Compiled(ownedStates, r, 1, To(acceptState))
                case Operands(_) => errorCode == ErrorInternalError
    {
      if postfix == [] {
        return acceptState;
      }
      if |postfix| > MAX_STATES {
        SetError(ErrorPatternTooLarge);
        return acceptState;
      }
      var stack: seq<Frag> := [];
      ghost var rs := Bottom;
      for i := 0 to |postfix|
        invariant ReduceAll(Operands(Bottom), postfix[..i]) == Operands(rs)
        invariant Holds(stack, rs) && |ownedStates| <= 2 * i + 1
        invariant ownedStates[0] == State(Match, Null, Null)
      {
        PrefixReduces(postfix, i);
        stack := BuildToken(stack, postfix[i], rs);
        if errorCode != NoError {
          PrefixMalformed(postfix, i + 1);
          return acceptState;
        }
        rs := Reduce(Operands(rs), postfix[i]).stack;
      }
      assert postfix[..|postfix|] == postfix;
      StackedDepth(ownedStates, stack, |stack|, rs, |ownedStates|);
      if |stack| != 1 {
        SetError(ErrorInternalError);
        return acceptState;
      }
      StackedTop(ownedStates, stack, 1, Bottom, rs.top, |ownedStates|);
      PatchFragment(stack[0].dangling, acceptState, rs.top, 1);
      return stack[0].start;
    }
  }
}
