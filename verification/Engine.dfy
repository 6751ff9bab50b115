// The matching engine: construction of RegexEngine, the per-call
// MatchContext, and the prefix matcher without captures (regex_engine.h).

module Engine {
  import opened Options
  import opened Utf8
  import opened RuneClasses
  import opened RegexSemantics
  import opened Postfix
  import opened Nfa
  import opened Thompson
  import opened Reachability
  import opened Closures

  const BITSET_MAX_STATES: nat := 128
  const MAX_CAPTURE_FRAME_ENTRIES: nat := 1_000_000

  // ---------------------------------------------------------------------
  // What matching means on bytes
  // ---------------------------------------------------------------------

  /** The subject a byte string denotes. */
  ghost function SubjectOf(classes: seq<RuneClass>, s: seq<Byte>, atStart: bool, prevWord: bool): (t: Subject)
    ensures t.Valid()
  {
    var rs := Runes(s, 0);
    Subject(classes, rs, seq(|rs| + 1, k requires 0 <= k <= |rs| => Offset(s, 0, k)), atStart, prevWord)
  }

  /** Boundary `i` of the subject, seen from the bytes. */
  ghost predicate BoundaryAt(s: seq<Byte>, t: Subject, i: nat)
    requires t.Valid() && i <= |t.runes|
  {
    var pos := t.offsets[i];
    && pos <= |s|
    && (pos < |s| <==> i < |t.runes|)
    && (pos < |s| ==> DecodeRune(s, pos).rune == t.runes[i] && pos + DecodeRune(s, pos).width == t.offsets[i + 1])
  }

  /** Decoding `s` step by step yields the subject. */
  ghost predicate ReadsAs(s: seq<Byte>, t: Subject)
  {
    t.Valid() && t.offsets[0] == 0 && forall i :: 0 <= i <= |t.runes| ==> BoundaryAt(s, t, i)
  }

  lemma SubjectReads(classes: seq<RuneClass>, s: seq<Byte>, atStart: bool, prevWord: bool)
    ensures var t := SubjectOf(classes, s, atStart, prevWord);
            ReadsAs(s, t) && t.atStart == atStart && t.prevWord == prevWord && t.classes == classes
  {
    var t := SubjectOf(classes, s, atStart, prevWord);
    forall i | 0 <= i <= |t.runes|
      ensures BoundaryAt(s, t, i)
    {
      if i < |t.runes| {
        DecodeAt(s, 0, i);
      }
    }
  }

  /** The matcher's view of boundary `i`: its byte offset, and the rune that starts there. */
  ghost predicate CursorAt(s: seq<Byte>, t: Subject, i: nat, pos: nat, here: Decoded, isWord: bool)
    requires t.Valid()
  {
    && i <= |t.runes| && pos == t.offsets[i] && pos <= |s|
    && (pos < |s| <==> i < |t.runes|)
    && (pos < |s| ==> here.rune == t.runes[i] && pos + here.width == t.offsets[i + 1] && here.width > 0)
    && (isWord <==> pos < |s| && IsWordChar(here.rune))
  }

  /** The rune at `pos`, if any, and whether it is a word character. */
  method ReadAhead(s: seq<Byte>, pos: nat, ghost t: Subject, ghost i: nat) returns (here: Decoded, isWord: bool)
    requires ReadsAs(s, t) && i <= |t.runes| && pos == t.offsets[i]
    ensures CursorAt(s, t, i, pos, here, isWord)
  {
    assert BoundaryAt(s, t, i);
    here, isWord := Decoded(0, 0), false;
    if pos < |s| {
      here := DecodeRune(s, pos);
      isWord := IsWordChar(here.rune);
    }
  }

  /** The boundary of the longest matching prefix, if there is one. */
  ghost predicate IsLongest(r: Option<Regex>, t: Subject, end: Option<nat>)
  {
    match end
    case None => forall j :: 0 <= j <= |t.runes| ==> !PatternMatches(r, t, 0, j)
    case Some(e) =>
      && e <= |t.runes|
      && PatternMatches(r, t, 0, e)
      && forall j :: e < j <= |t.runes| ==> !PatternMatches(r, t, 0, j)
  }

  /** The byte length of the longest matching prefix, if there is one. */
  ghost predicate IsLongestPrefix(r: Option<Regex>, t: Subject, len: Option<nat>)
    requires t.Valid()
  {
    match len
    case None => IsLongest(r, t, None)
    case Some(n) => exists e :: 0 <= e <= |t.runes| && n == t.offsets[e] && IsLongest(r, t, Some(e))
  }

  // ---------------------------------------------------------------------
  // Match context
  // ---------------------------------------------------------------------

  /** How many frames of the given width the arena holds. */
  function FrameLimit(slots: nat): nat
    requires slots > 0
  {
    MAX_CAPTURE_FRAME_ENTRIES / slots
  }

  lemma FrameLimitMeans(n: nat, slots: nat)
    ensures (n + 1) * slots > MAX_CAPTURE_FRAME_ENTRIES <==> slots > 0 && n >= FrameLimit(slots)
  {
    if slots > 0 {
      var limit := FrameLimit(slots);
      assert limit * slots <= MAX_CAPTURE_FRAME_ENTRIES < limit * slots + slots;
      if n + 1 <= limit {
        MulMonotone(n + 1, limit, slots);
      } else {
        MulMonotone(limit + 1, n + 1, slots);
        MulAdd(limit, slots);
      }
    }
  }

  /** A live thread of the capturing matcher: a state and its capture frame. */
  datatype Thread = Thread(state: nat, frame: nat)

  /** Scratch state that callers reuse from call to call, even across engines. */
  class MatchContext {
    var boundEngine: RegexEngine?
    var epochCounter: nat
    var visitedStates: seq<nat>
    var visitedBits: set<nat>
    var useBitset: bool
    var captureFrames: seq<Captures>
    var captureFrameSlots: nat

    ghost predicate Valid()
      reads this
    {
      && epochCounter < SIZE_MODULUS
      && forall k :: 0 <= k < |visitedStates| ==> visitedStates[k] <= epochCounter
    }

    constructor ()
      ensures Valid()
    {
      boundEngine := null;
      epochCounter, visitedStates := 0, [];
      visitedBits, useBitset := {}, false;
      captureFrames, captureFrameSlots := [], 0;
    }

    method BindEngine(engine: RegexEngine, stateCount: nat)
      requires Valid()
      modifies this
      ensures Valid() && |visitedStates| == stateCount
      ensures useBitset <==> stateCount <= BITSET_MAX_STATES
    {
      useBitset := stateCount <= BITSET_MAX_STATES;
      if boundEngine != engine {
        boundEngine := engine;
        epochCounter := 0;
        visitedStates := seq(stateCount, _ => 0);
        return;
      }
      if |visitedStates| != stateCount {
        visitedStates := seq(stateCount, _ => 0);
      }
    }

    /** A new epoch stamps no state, even when the counter wraps around. */
    method AdvanceEpoch() returns (epoch: nat)
      requires Valid()
      modifies this`epochCounter, this`visitedStates
      ensures Valid() && |visitedStates| == |old(visitedStates)|
      ensures epoch == epochCounter && Stamped(visitedStates, epoch) == {}
    {
      epochCounter := (epochCounter + 1) % SIZE_MODULUS;
      if epochCounter == 0 {
        epochCounter := 1;
        visitedStates := seq(|visitedStates|, _ => 0);
      }
      epoch := epochCounter;
    }

    /** Drops all capture frames and fixes their width. */
    method ResetCaptureFrames(slots: nat)
      modifies this`captureFrames, this`captureFrameSlots
      ensures captureFrames == [] && captureFrameSlots == slots
    {
      captureFrameSlots := slots;
      captureFrames := [];
    }

    /** The arena has no room for another frame. */
    ghost predicate OutOfFrames()
      reads this
    {
      captureFrameSlots > 0 && |captureFrames| >= FrameLimit(captureFrameSlots)
    }

    method AllocateCaptureFrame() returns (frame: Option<nat>)
      modifies this`captureFrames
      ensures old(OutOfFrames()) ==> frame == None && captureFrames == old(captureFrames)
      ensures !old(OutOfFrames()) ==>
                frame == Some(|old(captureFrames)|) &&
                captureFrames == old(captureFrames) + [seq(captureFrameSlots, _ => None)]
    {
      FrameLimitMeans(|captureFrames|, captureFrameSlots);
      if (|captureFrames| + 1) * captureFrameSlots > MAX_CAPTURE_FRAME_ENTRIES {
        return None;
      }
      frame := Some(|captureFrames|);
      captureFrames := captureFrames + [seq(captureFrameSlots, _ => None)];
    }

    /** A copy of a frame; writing to it leaves the original as it is. */
    method CloneCaptureFrame(frame: nat) returns (clone: Option<nat>)
      requires frame < |captureFrames|
      modifies this`captureFrames
      ensures old(OutOfFrames()) ==> clone == None && captureFrames == old(captureFrames)
      ensures !old(OutOfFrames()) ==>
                clone == Some(|old(captureFrames)|) &&
                captureFrames == old(captureFrames) + [old(captureFrames)[frame]]
    {
      FrameLimitMeans(|captureFrames|, captureFrameSlots);
      if (|captureFrames| + 1) * captureFrameSlots > MAX_CAPTURE_FRAME_ENTRIES {
        return None;
      }
      clone := Some(|captureFrames|);
      captureFrames := captureFrames + [captureFrames[frame]];
    }

    method WriteSlot(frame: nat, slot: nat, pos: nat)
      requires frame < |captureFrames|
      modifies this`captureFrames
      ensures captureFrames == old(captureFrames)[frame := SetSlot(old(captureFrames)[frame], slot, pos)]
    {
      captureFrames := captureFrames[frame := SetSlot(captureFrames[frame], slot, pos)];
    }

    /** The states visited since the last reset, whichever representation is in use. */
    ghost function Visited(epoch: nat): set<nat>
      reads this
    {
      if useBitset then visitedBits else Stamped(visitedStates, epoch)
    }

    /** Begins a new set of visited states. */
    method ResetVisited(epoch: nat) returns (newEpoch: nat)
      requires Valid()
      modifies this`epochCounter, this`visitedStates, this`visitedBits
      ensures Valid() && |visitedStates| == |old(visitedStates)|
      ensures newEpoch <= epochCounter && Visited(newEpoch) == {}
    {
      newEpoch := if epoch <= epochCounter then epoch else 0;
      if useBitset {
        visitedBits := {};
      } else {
        newEpoch := AdvanceEpoch();
      }
    }

    /** Tests whether a state was visited, and marks it visited if not. */
    method AlreadyVisited(state: nat, epoch: nat) returns (was: bool)
      requires Valid() && state < |visitedStates| && epoch <= epochCounter
      modifies this`visitedStates, this`visitedBits
      ensures Valid() && |visitedStates| == |old(visitedStates)|
      ensures was <==> state in old(Visited(epoch))
      ensures Visited(epoch) == old(Visited(epoch)) + {state}
    {
      if useBitset {
        was := state in visitedBits;
        visitedBits := visitedBits + {state};
        return;
      }
      was := visitedStates[state] == epoch;
      visitedStates := visitedStates[state := epoch];
    }
  }

  // ---------------------------------------------------------------------
  // Acceptance of runes
  // ---------------------------------------------------------------------

  /** Per-state bitmaps for ASCII runes, filled from literals and class bitmaps. */
  function AsciiBitmap(tag: Label, classes: seq<RuneClass>): seq<bool>
  {
    if tag.Class? && tag.index < |classes| then classes[tag.index].ascii
    else seq(ASCII_SIZE, r => tag.Lit? && tag.rune == r)
  }

  lemma AsciiBitmapSize(tag: Label, classes: seq<RuneClass>)
    requires forall c :: c in classes ==> c.Ready()
    ensures |AsciiBitmap(tag, classes)| == ASCII_SIZE
    ensures forall k :: 0 <= k < |classes| ==> |classes[k].ascii| == ASCII_SIZE
  {
    forall k | 0 <= k < |classes|
      ensures |classes[k].ascii| == ASCII_SIZE
    {
      assert classes[k] in classes;
    }
  }

  lemma AsciiBitmapAgrees(tag: Label, classes: seq<RuneClass>, r: Rune)
    requires forall c :: c in classes ==> c.Ready()
    requires r < ASCII_SIZE
    ensures |AsciiBitmap(tag, classes)| == ASCII_SIZE
    ensures AsciiBitmap(tag, classes)[r] <==> Accepts(classes, tag, r)
  {
    if tag.Class? && tag.index < |classes| {
      assert classes[tag.index] in classes;
    }
  }

  // ---------------------------------------------------------------------
  // Construction
  // ---------------------------------------------------------------------

  /** The pattern a token stream denotes; None is the empty pattern. */
  ghost predicate Denotes(postfix: seq<Token>, r: Option<Regex>)
  {
    match r
    case None => postfix == []
    case Some(x) => postfix == Postorder(x)
  }

  /** Whether any state tests a boundary condition. */
  method DetectConditionalStates(g: Graph) returns (found: bool)
    ensures !found <==> Unconditional(g)
  {
    for k := 0 to |g|
      invariant Unconditional(g[..k])
    {
      if g[k].tag.WordBoundary? || g[k].tag.StartAnchor? || g[k].tag.EndAnchor? {
        return true;
      }
    }
    assert g[..|g|] == g;
    return false;
  }

  /**
   * The automaton of a token stream. It is built for every stream that denotes
   * a pattern and is within bounds; for all others an error is reported.
   */
  method BuildAutomaton(postfix: seq<Token>) returns (g: Graph, start: nat, error: ErrorCode, ghost meaning: Option<Regex>)
    ensures error == NoError <==> Denotes(postfix, meaning) && |postfix| <= MAX_STATES
    ensures forall r :: Denotes(postfix, r) ==> r == meaning && error in {NoError, ErrorPatternTooLarge}
    ensures error == NoError ==>
              && Recognizes(g, start, meaning)
              && (forall k :: 1 <= k < |g| ==> !g[k].tag.Match?)
              && |g| == if meaning.Some? then 1 + Size(meaning.value) else 1
  {
    var builder := new NfaBuilder(|postfix|);
    start := builder.PostfixToNfa(postfix);
    g, error := builder.ownedStates, builder.errorCode;
    ghost var red := ReduceAll(Operands(Bottom), postfix);
    meaning := if postfix != [] && red.Operands? && red.stack.Push? then Some(red.stack.top) else None;
    forall r | Denotes(postfix, r)
      ensures r == meaning
    {
      if r.Some? {
        PostorderUnique(postfix, r.value);
      }
    }
    if meaning.Some? {
      PostorderUnique(postfix, meaning.value);
    }
    if error == NoError && postfix != [] {
      CompiledRecognizes(g, meaning.value);
    }
  }

  // ---------------------------------------------------------------------
  // The engine
  // ---------------------------------------------------------------------

  class RegexEngine {
    const states: Graph
    const asciiAccept: seq<seq<bool>>
    const trivialClosure: seq<bool>
    const cache: Cache
    const hasConditionals: bool
    const startState: nat
    const acceptState: nat := 0
    const numCaptures: nat
    const classes: seq<RuneClass>
    const errorCode: ErrorCode
    /** The regex the engine was built for; None is the empty pattern. */
    ghost const pattern: Option<Regex>

    /** What construction establishes for an engine without error. */
    ghost predicate Ready()
    {
      && errorCode == NoError
      && Recognizes(states, startState, pattern)
      && (forall k :: 1 <= k < |states| ==> !states[k].tag.Match?)
      && (forall c :: c in classes ==> c.Ready())
      && cache.Complete(states) && cache.conditional == hasConditionals
      && |trivialClosure| == |states|
      && (forall k :: 0 <= k < |states| && trivialClosure[k] ==> Trivial(states, k, Columns(hasConditionals)))
      && |asciiAccept| == |states|
      && (forall k :: 0 <= k < |states| ==> asciiAccept[k] == AsciiBitmap(states[k].tag, classes))
    }

    /**
     * Builds the engine for a token stream; `scanError` is the scanner's verdict.
     * Construction succeeds for every stream that denotes a pattern, unless the
     * stream or the closure cache exceeds its bound.
     */
    constructor (postfix: seq<Token>, classes: seq<RuneClass>, numCaptures: nat, scanError: ErrorCode)
      requires forall c :: c in classes ==> c.Ready()
      ensures this.classes == classes && this.numCaptures == numCaptures
      ensures scanError != NoError ==> errorCode == scanError
      ensures errorCode == NoError ==> Ready() && Denotes(postfix, pattern)
      ensures forall r :: scanError == NoError && Denotes(postfix, r) ==>
                r == pattern && errorCode in {NoError, ErrorPatternTooLarge}
      ensures scanError == NoError && Denotes(postfix, pattern) && |postfix| <= MAX_STATES ==>
                (errorCode == NoError <==> CacheFits(states, hasConditionals)) &&
                (SmallAutomaton(pattern) ==> CacheFits(states, hasConditionals))
    {
      var g, start, error;
      ghost var meaning;
      g, start, error, meaning := BuildAutomaton(postfix);
      if scanError != NoError {
        error := scanError;
      }
      var conditional := DetectConditionalStates(g);
      var closures, trivial := Cache(conditional, [], []), [];
      if error == NoError {
        var ok;
        ok, closures, trivial := PrecomputeClosures(g, conditional);
        SmallFits(conditional, g, meaning);
        if !ok {
          error := ErrorPatternTooLarge;
        }
      }
      states := g;
      startState := start;
      hasConditionals := conditional;
      cache := closures;
      trivialClosure := trivial;
      asciiAccept := seq(|g|, k requires 0 <= k < |g| => AsciiBitmap(g[k].tag, classes));
      this.numCaptures := numCaptures;
      this.classes := classes;
      errorCode := error;
      pattern := meaning;
    }

    // -------------------------------------------------------------------
    // One step of the simulation
    // -------------------------------------------------------------------

    /** Whether a state consumes a rune: bitmap for ASCII, class or literal otherwise. */
    predicate Consumes(state: nat, rune: Rune)
      requires Ready() && state < |states|
    {
      AsciiBitmapSize(states[state].tag, classes);
      if rune < ASCII_SIZE then
        asciiAccept[state][rune]
      else
        match states[state].tag
        case Class(k) => k < |classes| && classes[k].Contains(rune)
        case Lit(l) => l == rune
        case _ => false
    }

    /** The fast test decides acceptance. */
    lemma ConsumesDecides(state: nat, rune: Rune)
      requires Ready() && state < |states|
      ensures Consumes(state, rune) <==> Accepts(classes, states[state].tag, rune)
    {
      if rune < ASCII_SIZE {
        AsciiBitmapAgrees(states[state].tag, classes, rune);
      } else if states[state].tag.Class? && states[state].tag.index < |classes| {
        ContainsDecides(classes[states[state].tag.index], rune);
      }
    }

    /** The flags passed to the cache: constant if no state looks at them. */
    ghost predicate FlagsFit(f: Flags, e: Flags)
    {
      hasConditionals ==> f == e
    }

    lemma FittingClosure(f: Flags, e: Flags, s: nat)
      requires Ready() && FlagsFit(f, e)
      ensures Closure(states, f, s) == Closure(states, e, s)
    {
      if !hasConditionals {
        UnconditionalClosure(states, f, e, s);
      }
    }

    lemma TrivialClosureIsSelf(s: nat, f: Flags)
      requires Ready() && s < |states| && trivialClosure[s]
      ensures Closure(states, f, s) == {s}
    {
      if hasConditionals {
        FlagBitsRoundTrip(f);
        assert Closure(states, FlagsOf(FlagBits(f)), s) == {s};
      } else {
        assert Closure(states, FlagsOf(0), s) == {s};
        UnconditionalClosure(states, f, FlagsOf(0), s);
      }
    }

    /** A context that is ready to collect states of this engine. */
    ghost predicate Collecting(ctx: MatchContext, epoch: nat, list: seq<nat>)
      reads ctx
    {
      && ctx.Valid() && |ctx.visitedStates| == |states| && epoch <= ctx.epochCounter
      && Lists(list, ctx.Visited(epoch))
    }

    /** Adds the cached closure of a state to the list, skipping visited states. */
    method AddState(ctx: MatchContext, list: seq<nat>, state: Ptr, epoch: nat, f: Flags) returns (result: seq<nat>)
      requires Ready() && PtrInRange(states, state) && Collecting(ctx, epoch, list)
      modifies ctx`visitedStates, ctx`visitedBits
      ensures Collecting(ctx, epoch, result)
      ensures ctx.Visited(epoch) == old(ctx.Visited(epoch)) + if state.To? then Closure(states, f, state.id) else {}
    {
      result := list;
      if state.Null? {
        return;
      }
      if trivialClosure[state.id] {
        TrivialClosureIsSelf(state.id, f);
        var was := ctx.AlreadyVisited(state.id, epoch);
        if !was {
          result := result + [state.id];
        }
        return;
      }
      LookupIsClosure(cache, states, state.id, f);
      var closure := cache.Lookup(state.id, f);
      result := AddUnvisited(ctx, result, closure, epoch);
      assert Elements(closure) == Closure(states, f, state.id);
    }

    method AddUnvisited(ctx: MatchContext, list: seq<nat>, closure: seq<nat>, epoch: nat) returns (result: seq<nat>)
      requires Collecting(ctx, epoch, list)
      requires forall d :: d in closure ==> d < |states|
      modifies ctx`visitedStates, ctx`visitedBits
      ensures Collecting(ctx, epoch, result)
      ensures ctx.Visited(epoch) == old(ctx.Visited(epoch)) + Elements(closure)
    {
      result := list;
      for k := 0 to |closure|
        invariant Collecting(ctx, epoch, result)
        invariant ctx.Visited(epoch) == old(ctx.Visited(epoch)) + Elements(closure[..k])
      {
        ElementsSnoc(closure, k);
        var was := ctx.AlreadyVisited(closure[k], epoch);
        if !was {
          result := result + [closure[k]];
        }
      }
      assert closure[..|closure|] == closure;
    }

    /** The states alive at boundary 0: the closure of the start state. */
    method StartList(ctx: MatchContext, epoch: nat, f: Flags, ghost t: Subject) returns (list: seq<nat>, newEpoch: nat)
      requires Ready() && ctx.Valid() && |ctx.visitedStates| == |states|
      requires t.Valid() && FlagsFit(f, FlagsAt(t, 0))
      modifies ctx
      ensures ctx.Valid() && |ctx.visitedStates| == |states|
      ensures Lists(list, Alive(states, t, startState, 0))
    {
      newEpoch := ctx.ResetVisited(epoch);
      list := AddState(ctx, [], To(startState), newEpoch, f);
      FittingClosure(f, FlagsAt(t, 0), startState);
    }

    /** One rune: the successors of all current states that consume it. */
    method Step(ctx: MatchContext, current: seq<nat>, rune: Rune, epoch: nat, f: Flags, ghost t: Subject, ghost i: nat)
        returns (next: seq<nat>, newEpoch: nat)
      requires Ready() && ctx.Valid() && |ctx.visitedStates| == |states|
      requires t.classes == classes && i < |t.runes| && t.runes[i] == rune && FlagsFit(f, FlagsAt(t, i + 1))
      requires t.Valid() && Lists(current, Alive(states, t, startState, i))
      modifies ctx
      ensures ctx.Valid() && |ctx.visitedStates| == |states|
      ensures Lists(next, Alive(states, t, startState, i + 1))
    {
      CurrentInRange(t, i, current);
      newEpoch := ctx.ResetVisited(epoch);
      next := [];
      for k := 0 to |current|
        invariant Collecting(ctx, newEpoch, next)
        invariant ctx.Visited(newEpoch) == Advance(states, t, Elements(current[..k]), i)
      {
        var x := current[k];
        ElementsSnoc(current, k);
        AdvanceAdds(states, t, Elements(current[..k]), x, i);
        ConsumesDecides(x, rune);
        if Consumes(x, rune) {
          next := AddState(ctx, next, states[x].next, newEpoch, f);
          if states[x].next.To? {
            FittingClosure(f, FlagsAt(t, i + 1), states[x].next.id);
          }
        }
      }
      assert current[..|current|] == current;
    }

    // -------------------------------------------------------------------
    // Prefix matching without captures
    // -------------------------------------------------------------------

    /** Without assertions in the automaton, all flags are passed as false. */
    function GatedFlags(boundary: bool, atStart: bool, atEnd: bool): (f: Flags)
      ensures FlagsFit(f, Flags(boundary, atStart, atEnd))
    {
      Flags(hasConditionals && boundary, hasConditionals && atStart, hasConditionals && atEnd)
    }

    lemma CurrentInRange(t: Subject, i: nat, current: seq<nat>)
      requires Ready() && t.Valid() && i <= |t.runes| && Lists(current, Alive(states, t, startState, i))
      ensures forall x :: x in current ==> x < |states|
      ensures Elements(current) == Alive(states, t, startState, i)
    {
      forall x: nat | x in current
        ensures x < |states|
      {
        LiveIsReached(states, t, startState, i, x);
      }
    }

    /** The current states are those alive at boundary `i`, which starts at byte `pos`. */
    ghost predicate Simulating(t: Subject, i: nat, pos: nat, current: seq<nat>)
      requires Ready() && t.Valid()
    {
      i <= |t.runes| && pos == t.offsets[i] && Lists(current, Alive(states, t, startState, i))
    }

    /** The longest match found up to boundary `i`. */
    ghost predicate BestUpTo(t: Subject, i: nat, best: Option<nat>)
      requires t.Valid() && i <= |t.runes|
    {
      match best
      case None => forall j :: 0 <= j <= i ==> !PatternMatches(pattern, t, 0, j)
      case Some(n) =>
        exists e :: 0 <= e <= i && n == t.offsets[e] && PatternMatches(pattern, t, 0, e) &&
                    forall j :: e < j <= i ==> !PatternMatches(pattern, t, 0, j)
    }

    /** A match ending at boundary `i` is longer than all found before. */
    lemma {:induction false} BestStep(t: Subject, i: nat, pos: nat, current: seq<nat>, before: Option<nat>, best: Option<nat>)
      requires Ready() && t.Valid() && Simulating(t, i, pos, current)
      requires i > 0 ==> BestUpTo(t, i - 1, before)
      requires i == 0 ==> before == None
      requires best == if acceptState in current then Some(pos) else before
      ensures BestUpTo(t, i, best)
    {
      AcceptIffMatches(states, startState, pattern, t, i);
      if acceptState !in current && best.Some? {
        var e :| 0 <= e <= i - 1 && best.value == t.offsets[e] && PatternMatches(pattern, t, 0, e) &&
                 forall j :: e < j <= i - 1 ==> !PatternMatches(pattern, t, 0, j);
        assert forall j :: e < j <= i ==> !PatternMatches(pattern, t, 0, j);
      }
    }

    /** With no state alive, nothing longer can match. */
    lemma BestFinal(t: Subject, i: nat, pos: nat, current: seq<nat>, best: Option<nat>)
      requires Ready() && t.Valid() && Simulating(t, i, pos, current) && BestUpTo(t, i, best)
      requires i == |t.runes| || current == []
      ensures IsLongestPrefix(pattern, t, best)
    {
      forall j | i < j <= |t.runes|
        ensures !PatternMatches(pattern, t, 0, j)
      {
        assert Alive(states, t, startState, i) == {};
        DeadStaysDead(states, t, startState, i, j);
        AcceptIffMatches(states, startState, pattern, t, j);
      }
      if best.Some? {
        var e :| 0 <= e <= i && best.value == t.offsets[e] && PatternMatches(pattern, t, 0, e) &&
                 forall j :: e < j <= i ==> !PatternMatches(pattern, t, 0, j);
        assert IsLongest(pattern, t, Some(e));
      }
    }

    /** The byte length of the longest prefix of `s` that the pattern matches. */
    method FindPrefixNoncapturing(s: seq<Byte>, ctx: MatchContext, atStart: bool, prevWord: bool) returns (best: Option<nat>)
      requires ctx.Valid() && (errorCode == NoError ==> Ready())
      modifies ctx
      ensures ctx.Valid()
      ensures errorCode != NoError ==> best == None
      ensures errorCode == NoError ==> IsLongestPrefix(pattern, SubjectOf(classes, s, atStart, prevWord), best)
    {
      ctx.BindEngine(this, |states|);
      if errorCode != NoError {
        return None;
      }
      SubjectReads(classes, s, atStart, prevWord);
      best := Simulate(s, ctx, atStart, prevWord, SubjectOf(classes, s, atStart, prevWord));
    }

    method Simulate(s: seq<Byte>, ctx: MatchContext, atStart: bool, prevWord: bool, ghost t: Subject) returns (best: Option<nat>)
      requires Ready() && ctx.Valid() && |ctx.visitedStates| == |states|
      requires ReadsAs(s, t) && t.atStart == atStart && t.prevWord == prevWord && t.classes == classes
      modifies ctx
      ensures ctx.Valid()
      ensures IsLongestPrefix(pattern, t, best)
    {
      ghost var i: nat := 0;
      assert BoundaryAt(s, t, 0);
      var here, nextIsWord := ReadAhead(s, 0, t, 0);
      var f := GatedFlags(prevWord != nextIsWord, atStart, s == []);
      var current: seq<nat>;
      var epoch: nat;
      current, epoch := StartList(ctx, 0, f, t);
      best := if acceptState in current then Some(0) else None;
      BestStep(t, 0, 0, current, None, best);
      var pos := 0;
      while pos < |s| && current != []
        invariant ctx.Valid() && |ctx.visitedStates| == |states|
        invariant CursorAt(s, t, i, pos, here, nextIsWord)
        invariant Simulating(t, i, pos, current) && BestUpTo(t, i, best)
        decreases |s| - pos
      {
        var rune, prevIsWord := here.rune, nextIsWord;
        pos := pos + here.width;
        here, nextIsWord := ReadAhead(s, pos, t, i + 1);
        f := GatedFlags(prevIsWord != nextIsWord, false, pos >= |s|);
        current, epoch := Step(ctx, current, rune, epoch, f, t, i);
        i := i + 1;
        ghost var before := best;
        if acceptState in current {
          best := Some(pos);
        }
        BestStep(t, i, pos, current, before, best);
      }
      BestFinal(t, i, pos, current, best);
    }
  }

  ghost function Elements(list: seq<nat>): set<nat> { set d | d in list }

  lemma ElementsSnoc(list: seq<nat>, k: nat)
    requires k < |list|
    ensures list[k] in list
    ensures Elements(list[..k + 1]) == Elements(list[..k]) + {list[k]}
  {
    assert list[..k + 1] == list[..k] + [list[k]];
  }

  /** The list enumerates the set. */
  ghost predicate Lists(list: seq<nat>, s: set<nat>)
  {
    forall d: nat :: d in list <==> d in s
  }

  /** So few states that the closure cache cannot overflow. */
  ghost predicate SmallAutomaton(r: Option<Regex>)
  {
    var n := if r.Some? then 1 + Size(r.value) else 1;
    n <= 353
  }

  lemma SmallFits(conditional: bool, g: Graph, r: Option<Regex>)
    requires |g| == if r.Some? then 1 + Size(r.value) else 1
    ensures SmallAutomaton(r) ==> CacheSlot(conditional, |g|, 0) * |g| <= MAX_CLOSURE_CACHE_ENTRIES
  {
    if SmallAutomaton(r) {
      MulMonotone(CacheSlot(conditional, |g|, 0), 2824, |g|);
      MulMonotone(|g|, 353, 2824);
    }
  }
}
