// Precomputed epsilon closures: compute_epsilon_closure,
// precompute_epsilon_closures and the flat closure cache in regex_engine.h.

module Closures {
  import opened RegexSemantics
  import opened Nfa
  import opened Reachability

  const MAX_CLOSURE_CACHE_ENTRIES: nat := 1_000_000
  const FLAG_COMBINATIONS: nat := 8

  /** `list` enumerates the closure of `s`, each state once. */
  ghost predicate ListsClosure(list: seq<nat>, g: Graph, f: Flags, s: nat)
  {
    && (forall d: nat :: d in list <==> d in Closure(g, f, s))
    && NoDuplicates(list)
  }

  ghost predicate NoDuplicates(list: seq<nat>)
  {
    forall a, b :: 0 <= a < b < |list| ==> list[a] != list[b]
  }

  lemma NoDuplicatesSnoc(list: seq<nat>, x: nat)
    requires NoDuplicates(list)
    ensures x !in list ==> NoDuplicates(list + [x])
  {
  }

  // ---------------------------------------------------------------------
  // Depth-first traversal
  // ---------------------------------------------------------------------

  /** The states stamped with the current epoch. */
  ghost function Stamped(seen: seq<nat>, epoch: nat): set<nat>
  {
    set k | 0 <= k < |seen| && seen[k] == epoch
  }

  /** The states that are not. */
  /** One more state is stamped. */
  lemma StampOne(seen: seq<nat>, epoch: nat, x: nat)
    requires x < |seen| && seen[x] != epoch
    ensures Stamped(seen[x := epoch], epoch) == Stamped(seen, epoch) + {x}
    ensures Unstamped(seen[x := epoch], epoch) < Unstamped(seen, epoch)
  {
    assert x in Unstamped(seen, epoch);
  }

  ghost function Unstamped(seen: seq<nat>, epoch: nat): set<nat>
  {
    set k | 0 <= k < |seen| && seen[k] != epoch
  }

  /** All seen and stacked states are reachable; moves out of seen states were followed. */
  ghost predicate Explores(g: Graph, f: Flags, s: nat, seen: set<nat>, stack: seq<Ptr>)
  {
    && (forall x :: x in seen ==> EpsReach(g, f, s, x))
    && (forall k :: 0 <= k < |stack| && stack[k].To? ==> EpsReach(g, f, s, stack[k].id))
    && ClosedModulo(g, f, seen, stack)
    && (s in seen || To(s) in stack)
  }

  /** Every move out of a seen state leads to a seen or stacked state. */
  ghost predicate ClosedModulo(g: Graph, f: Flags, seen: set<nat>, stack: seq<Ptr>)
  {
    forall x, y: nat :: x in seen && EpsStep(g, f, x, y) ==> y in seen || To(y) in stack
  }

  /** The pointers pushed when state `x` is expanded; the last one is visited first. */
  function Pushes(g: Graph, f: Flags, x: nat): seq<Ptr>
    requires x < |g|
  {
    var st := g[x];
    match st.tag
    case Split => [st.alt, st.next]
    case CaptureOpen(_) => [st.next]
    case CaptureClose(_) => [st.next]
    case tag => if Passes(tag, f) then [st.next] else []
  }

  /** Popping a state that is null or was seen before. */
  lemma ExploreSkip(g: Graph, f: Flags, s: nat, seen: set<nat>, stack: seq<Ptr>)
    requires Explores(g, f, s, seen, stack) && stack != []
    requires stack[|stack| - 1].Null? || stack[|stack| - 1].id in seen
    ensures Explores(g, f, s, seen, stack[..|stack| - 1])
  {
    var top, rest := stack[|stack| - 1], stack[..|stack| - 1];
    forall p | p in stack && p != top
      ensures p in rest
    {
      PopKeeps(stack, p);
    }
  }

  lemma PopKeeps(stack: seq<Ptr>, p: Ptr)
    requires p in stack && p != stack[|stack| - 1]
    ensures p in stack[..|stack| - 1]
  {
    var k :| 0 <= k < |stack| && stack[k] == p;
    assert stack[..|stack| - 1][k] == p;
  }

  /** Popping an unseen state: it becomes seen and its moves are pushed. */
  lemma ExplorePush(g: Graph, f: Flags, s: nat, seen: set<nat>, stack: seq<Ptr>, x: nat)
    requires Explores(g, f, s, seen, stack) && stack != [] && stack[|stack| - 1] == To(x) && x < |g|
    ensures Explores(g, f, s, seen + {x}, stack[..|stack| - 1] + Pushes(g, f, x))
  {
    var rest := stack[..|stack| - 1];
    var post := rest + Pushes(g, f, x);
    assert EpsReach(g, f, s, x);
    forall p | p in stack && p != To(x)
      ensures p in post
    {
      PopKeeps(stack, p);
    }
    forall k | 0 <= k < |post| && post[k].To?
      ensures EpsReach(g, f, s, post[k].id)
    {
      if k < |rest| {
        assert post[k] == stack[k];
      } else {
        assert post[k] == Pushes(g, f, x)[k - |rest|];
        assert EpsStep(g, f, x, post[k].id);
        EpsReachSnoc(g, f, s, x, post[k].id);
      }
    }
    forall y: nat | EpsStep(g, f, x, y)
      ensures To(y) in post
    {
      assert To(y) in Pushes(g, f, x);
    }
  }

  /** When the stack is empty, the seen terminal states are the closure. */
  lemma ExploreDone(g: Graph, f: Flags, s: nat, seen: set<nat>, d: nat)
    requires Explores(g, f, s, seen, [])
    requires forall x :: x in seen ==> x < |g|
    ensures d in Closure(g, f, s) <==> d in seen && g[d].tag.IsTerminal()
  {
    if d in Closure(g, f, s) {
      var n: nat :| EpsRun(g, f, n, s, d);
      ClosedContains(g, f, n, s, d, seen);
    }
  }

  /** Scratch state that is reused from one traversal to the next. */
  class ClosureBuilder {
    var closure: seq<nat>
    var stack: seq<Ptr>
    var seenEpoch: seq<nat>
    var traversalEpoch: nat

    ghost predicate Valid(count: nat)
      reads this
    {
      && |seenEpoch| == count
      && traversalEpoch < SIZE_MODULUS
      && forall k :: 0 <= k < |seenEpoch| ==> seenEpoch[k] <= traversalEpoch
    }

    constructor (count: nat)
      ensures Valid(count)
    {
      closure, stack := [], [];
      seenEpoch := seq(count, _ => 0);
      traversalEpoch := 0;
    }

    /** A new epoch stamps no state, even when the counter wraps around. */
    method NextEpoch(ghost count: nat)
      requires Valid(count)
      modifies this`traversalEpoch, this`seenEpoch
      ensures Valid(count)
      ensures Stamped(seenEpoch, traversalEpoch) == {}
    {
      traversalEpoch := (traversalEpoch + 1) % SIZE_MODULUS;
      if traversalEpoch == 0 {
        traversalEpoch := 1;
        seenEpoch := seq(|seenEpoch|, _ => 0);
      }
    }

    /** The traversal from `state` is on track. */
    ghost predicate Exploring(g: Graph, state: nat, f: Flags)
      reads this
    {
      && Valid(|g|)
      && Explores(g, f, state, Stamped(seenEpoch, traversalEpoch), stack)
      && (forall k :: 0 <= k < |stack| ==> PtrInRange(g, stack[k]))
      && (forall d: nat :: d in closure <==> d in Stamped(seenEpoch, traversalEpoch) && g[d].tag.IsTerminal())
      && NoDuplicates(closure)
    }

    /** Visits the state on top of the stack for the first time. */
    method Visit(g: Graph, ghost state: nat, f: Flags)
      requires InRange(g) && Exploring(g, state, f)
      requires stack != [] && stack[|stack| - 1].To? && seenEpoch[stack[|stack| - 1].id] != traversalEpoch
      modifies this
      ensures Exploring(g, state, f)
      ensures Unstamped(seenEpoch, traversalEpoch) < old(Unstamped(seenEpoch, traversalEpoch))
    {
      var x := stack[|stack| - 1].id;
      ghost var seen := Stamped(seenEpoch, traversalEpoch);
      ExplorePush(g, f, state, seen, stack, x);
      StampOne(seenEpoch, traversalEpoch, x);
      seenEpoch := seenEpoch[x := traversalEpoch];
      stack := stack[..|stack| - 1] + Pushes(g, f, x);
      if g[x].tag.IsTerminal() {
        NoDuplicatesSnoc(closure, x);
        closure := closure + [x];
      }
    }

    method Compute(g: Graph, state: nat, f: Flags)
      requires Valid(|g|) && InRange(g) && state < |g|
      modifies this
      ensures Valid(|g|)
      ensures ListsClosure(closure, g, f, state)
    {
      closure := [];
      stack := [To(state)];
      NextEpoch(|g|);
      EpsReachSelf(g, f, state);
      while stack != []
        invariant Exploring(g, state, f)
        decreases Unstamped(seenEpoch, traversalEpoch), |stack|
      {
        var s := stack[|stack| - 1];
        if s.Null? || seenEpoch[s.id] == traversalEpoch {
          ExploreSkip(g, f, state, Stamped(seenEpoch, traversalEpoch), stack);
          stack := stack[..|stack| - 1];
        } else {
          Visit(g, state, f);
        }
      }
      forall d: nat
        ensures d in closure <==> d in Closure(g, f, state)
      {
        ExploreDone(g, f, state, Stamped(seenEpoch, traversalEpoch), d);
      }
    }
  }

  // ---------------------------------------------------------------------
  // The flat cache
  // ---------------------------------------------------------------------

  /** The encoding of boundary conditions as a cache column. */
  function FlagBits(f: Flags): (b: nat)
    ensures b < FLAG_COMBINATIONS
  {
    (if f.boundary then 1 else 0) + (if f.atStart then 2 else 0) + (if f.atEnd then 4 else 0)
  }

  function FlagsOf(b: nat): Flags
  {
    Flags(b % 2 == 1, b / 2 % 2 == 1, b / 4 % 2 == 1)
  }

  lemma FlagBitsRoundTrip(f: Flags)
    ensures FlagsOf(FlagBits(f)) == f
  {
  }

  /** The cache slot of a state: one column per state, or eight if the automaton has assertions. */
  function CacheSlot(conditional: bool, state: nat, bits: nat): nat
  {
    if conditional then state * FLAG_COMBINATIONS + bits else state
  }

  function Columns(conditional: bool): nat
  {
    if conditional then FLAG_COMBINATIONS else 1
  }

  /** An automaton without assertions ignores the boundary conditions. */
  ghost predicate Unconditional(g: Graph)
  {
    forall k :: 0 <= k < |g| ==> !(g[k].tag.WordBoundary? || g[k].tag.StartAnchor? || g[k].tag.EndAnchor?)
  }

  lemma {:induction false} UnconditionalRun(g: Graph, f: Flags, e: Flags, n: nat, s: nat, d: nat)
    requires Unconditional(g) && EpsRun(g, f, n, s, d)
    ensures EpsRun(g, e, n, s, d)
    decreases n
  {
    if n > 0 {
      var m: nat :| EpsStep(g, f, s, m) && EpsRun(g, f, n - 1, m, d);
      UnconditionalRun(g, f, e, n - 1, m, d);
      assert EpsStep(g, e, s, m);
    }
  }

  lemma UnconditionalClosure(g: Graph, f: Flags, e: Flags, s: nat)
    requires Unconditional(g)
    ensures Closure(g, f, s) == Closure(g, e, s)
  {
    forall d: nat
      ensures EpsReach(g, f, s, d) <==> EpsReach(g, e, s, d)
    {
      if EpsReach(g, f, s, d) {
        var n: nat :| EpsRun(g, f, n, s, d);
        UnconditionalRun(g, f, e, n, s, d);
      }
      if EpsReach(g, e, s, d) {
        var n: nat :| EpsRun(g, e, n, s, d);
        UnconditionalRun(g, e, f, n, s, d);
      }
    }
  }

  /** All closures, one after the other, with the position where each begins. */
  datatype Cache = Cache(conditional: bool, flat: seq<nat>, offsets: seq<nat>)
  {
    /** The entries of one slot. */
    ghost predicate SlotLists(g: Graph, state: nat, bits: nat)
    {
      var slot := CacheSlot(conditional, state, bits);
      && slot + 1 < |offsets|
      && offsets[slot] <= offsets[slot + 1] <= |flat|
      && ListsClosure(flat[offsets[slot]..offsets[slot + 1]], g, FlagsOf(bits), state)
    }

    ghost predicate Complete(g: Graph)
    {
      && (!conditional ==> Unconditional(g))
      && forall state: nat, bits: nat :: state < |g| && bits < Columns(conditional) ==> SlotLists(g, state, bits)
    }

    /** The cached closure of a state. */
    function Lookup(state: nat, f: Flags): seq<nat>
      requires var slot := CacheSlot(conditional, state, FlagBits(f));
               slot + 1 < |offsets| && offsets[slot] <= offsets[slot + 1] <= |flat|
    {
      var slot := CacheSlot(conditional, state, FlagBits(f));
      flat[offsets[slot]..offsets[slot + 1]]
    }
  }

  /** A complete cache answers every lookup with the closure. */
  lemma LookupIsClosure(c: Cache, g: Graph, state: nat, f: Flags)
    requires c.Complete(g) && state < |g|
    ensures var slot := CacheSlot(c.conditional, state, FlagBits(f));
            slot + 1 < |c.offsets| && c.offsets[slot] <= c.offsets[slot + 1] <= |c.flat|
    ensures ListsClosure(c.Lookup(state, f), g, f, state)
  {
    if c.conditional {
      FlagBitsRoundTrip(f);
      assert c.SlotLists(g, state, FlagBits(f));
    } else {
      assert c.SlotLists(g, state, 0);
      UnconditionalClosure(g, FlagsOf(0), f, state);
    }
  }

  /** The slots filled so far: slot k ends where `ends[k]` says, and the next one begins there. */
  ghost predicate AllFilled(g: Graph, c: Cache, ends: seq<nat>)
  {
    && |ends| < |c.offsets|
    && (forall k :: 0 <= k < |ends| ==> c.offsets[k] <= ends[k] <= |c.flat|)
    && (forall k :: 0 < k < |ends| ==> c.offsets[k] == ends[k - 1])
    && (if ends == [] then 0 else ends[|ends| - 1]) == |c.flat|
  }

  /** Slot `slot` lists the closure of `state`. */
  ghost predicate SlotFilled(g: Graph, c: Cache, ends: seq<nat>, state: nat, bits: nat)
  {
    var slot := CacheSlot(c.conditional, state, bits);
    && slot < |ends| && slot < |c.offsets|
    && c.offsets[slot] <= ends[slot] <= |c.flat|
    && ListsClosure(c.flat[c.offsets[slot]..ends[slot]], g, FlagsOf(bits), state)
  }

  /** All slots of the states below `state`, and the first `bits` slots of `state` itself. */
  ghost predicate FilledUpTo(g: Graph, c: Cache, ends: seq<nat>, state: nat, bits: nat)
  {
    && |c.offsets| == CacheSlot(c.conditional, |g|, 0) + 1
    && AllFilled(g, c, ends)
    && |ends| == CacheSlot(c.conditional, state, 0) + bits
    && (forall s: nat, b: nat :: s < state && b < Columns(c.conditional) ==> SlotFilled(g, c, ends, s, b))
    && (forall b: nat :: b < bits ==> SlotFilled(g, c, ends, state, b))
  }

  /** A list without duplicates is no longer than the range its entries come from. */
  lemma {:induction false} PigeonHole(list: seq<nat>, n: nat)
    requires NoDuplicates(list) && forall d: nat :: d in list ==> d < n
    ensures |list| <= n
    decreases n
  {
    if n > 0 {
      if n - 1 in list {
        var k :| 0 <= k < |list| && list[k] == n - 1;
        var rest := list[..k] + list[k + 1..];
        forall a | 0 <= a < |rest|
          ensures rest[a] < n - 1
        {
          var x := if a < k then a else a + 1;
          assert rest[a] == list[x] && list[x] in list;
          assert if x < k then list[x] != list[k] else list[k] != list[x];
        }
        PigeonHole(rest, n - 1);
      } else {
        PigeonHole(list, n - 1);
      }
    } else {
      FirstOccurs(list);
    }
  }

  lemma FirstOccurs(list: seq<nat>)
    ensures list != [] ==> exists d: nat :: d in list
  {
    if list != [] {
      assert list[0] in list;
    }
  }

  lemma MulAdd(a: nat, n: nat)
    ensures (a + 1) * n == a * n + n
  {
  }

  lemma MulMonotone(a: nat, b: nat, n: nat)
    requires a <= b
    ensures a * n <= b * n
  {
  }

  /** `d` is `c` with the closure of the next slot appended. */
  ghost predicate Appended(c: Cache, ends: seq<nat>, list: seq<nat>, d: Cache, newEnds: seq<nat>)
  {
    && |ends| < |c.offsets|
    && d == Cache(c.conditional, c.flat + list, c.offsets[|ends| := |c.flat|])
    && newEnds == ends + [|d.flat|]
  }

  lemma AppendKeeps(g: Graph, c: Cache, ends: seq<nat>, list: seq<nat>, d: Cache, newEnds: seq<nat>, state: nat, bits: nat)
    requires Appended(c, ends, list, d, newEnds) && SlotFilled(g, c, ends, state, bits)
    ensures SlotFilled(g, d, newEnds, state, bits)
  {
    var k := CacheSlot(c.conditional, state, bits);
    assert d.flat[c.offsets[k]..ends[k]] == c.flat[c.offsets[k]..ends[k]];
  }

  lemma {:induction false} AppendSlot(g: Graph, c: Cache, ends: seq<nat>, state: nat, bits: nat, list: seq<nat>, d: Cache, newEnds: seq<nat>)
    requires state < |g| && bits < Columns(c.conditional) && FilledUpTo(g, c, ends, state, bits)
    requires ListsClosure(list, g, FlagsOf(bits), state)
    requires Appended(c, ends, list, d, newEnds)
    ensures FilledUpTo(g, d, newEnds, state, bits + 1)
  {
    forall s: nat, b: nat | s < state && b < Columns(c.conditional)
      ensures SlotFilled(g, d, newEnds, s, b)
    {
      AppendKeeps(g, c, ends, list, d, newEnds, s, b);
    }
    forall b: nat | b < bits + 1
      ensures SlotFilled(g, d, newEnds, state, b)
    {
      if b < bits {
        AppendKeeps(g, c, ends, list, d, newEnds, state, b);
      } else {
        assert d.flat[|c.flat|..|d.flat|] == list;
      }
    }
  }

  /** The number of cache entries the first `bits` flag combinations of a state take. */
  ghost function StateEntries(g: Graph, state: nat, bits: nat): nat
    decreases bits, |g|
  {
    if bits == 0 then 0 else StateEntries(g, state, bits - 1) + |Closure(g, FlagsOf(bits - 1), state)|
  }

  /** The number of cache entries the first `n` states take. */
  ghost function CacheEntries(g: Graph, columns: nat, n: nat): nat
    decreases n, |g|
  {
    if n == 0 then 0 else CacheEntries(g, columns, n - 1) + StateEntries(g, n - 1, columns)
  }

  /** All closures fit the cache. */
  ghost predicate CacheFits(g: Graph, conditional: bool)
  {
    CacheEntries(g, Columns(conditional), |g|) <= MAX_CLOSURE_CACHE_ENTRIES
  }

  lemma {:induction false} StateEntriesGrow(g: Graph, state: nat, a: nat, b: nat)
    requires a <= b
    ensures StateEntries(g, state, a) <= StateEntries(g, state, b)
    decreases b
  {
    if a < b {
      StateEntriesGrow(g, state, a, b - 1);
    }
  }

  lemma {:induction false} CacheEntriesGrow(g: Graph, columns: nat, a: nat, b: nat)
    requires a <= b
    ensures CacheEntries(g, columns, a) <= CacheEntries(g, columns, b)
    decreases b
  {
    if a < b {
      CacheEntriesGrow(g, columns, a, b - 1);
    }
  }

  /** Once the entries of a slot exceed the bound, so do all entries. */
  lemma EntriesOverflow(g: Graph, conditional: bool, state: nat, bits: nat)
    requires state < |g| && bits <= Columns(conditional)
    requires CacheEntries(g, Columns(conditional), state) + StateEntries(g, state, bits) > MAX_CLOSURE_CACHE_ENTRIES
    ensures !CacheFits(g, conditional)
  {
    StateEntriesGrow(g, state, bits, Columns(conditional));
    CacheEntriesGrow(g, Columns(conditional), state + 1, |g|);
  }

  /** A list of a closure is as long as the closure is large. */
  lemma ListLength(list: seq<nat>, g: Graph, f: Flags, s: nat)
    requires ListsClosure(list, g, f, s)
    ensures |list| == |Closure(g, f, s)|
  {
    DistinctLength(list, Closure(g, f, s));
  }

  lemma {:induction false} DistinctLength(list: seq<nat>, all: set<nat>)
    requires NoDuplicates(list) && forall d: nat :: d in list <==> d in all
    ensures |list| == |all|
    decreases |list|
  {
    if list == [] {
      assert all == {};
    } else {
      var n := |list| - 1;
      var rest := list[..n];
      assert list[n] in list && list == rest + [list[n]];
      forall d: nat
        ensures d in rest <==> d in all - {list[n]}
      {
        if d in rest {
          var k :| 0 <= k < n && rest[k] == d;
          assert list[k] == d && list[k] in list && list[k] != list[n];
        }
        if d in all - {list[n]} {
          var k :| 0 <= k < |list| && list[k] == d;
          assert rest[k] == d;
        }
      }
      DistinctLength(rest, all - {list[n]});
    }
  }

  /** The next slot is filled: its closure is appended to the flat buffer. */
  method FillSlot(builder: ClosureBuilder, g: Graph, cache: Cache, state: nat, bits: nat, ghost ends: seq<nat>)
      returns (result: Cache, list: seq<nat>, ghost newEnds: seq<nat>)
    requires builder.Valid(|g|) && InRange(g) && state < |g| && bits < Columns(cache.conditional)
    requires FilledUpTo(g, cache, ends, state, bits)
    modifies builder
    ensures builder.Valid(|g|)
    ensures ListsClosure(list, g, FlagsOf(bits), state)
    ensures result.conditional == cache.conditional
    ensures FilledUpTo(g, result, newEnds, state, bits + 1)
    ensures |result.flat| == |cache.flat| + |Closure(g, FlagsOf(bits), state)|
    ensures |cache.flat| <= |ends| * |g| ==> |result.flat| <= |newEnds| * |g|
  {
    var slot := CacheSlot(cache.conditional, state, bits);
    builder.Compute(g, state, FlagsOf(bits));
    list := builder.closure;
    result := Cache(cache.conditional, cache.flat + list, cache.offsets[slot := |cache.flat|]);
    newEnds := ends + [|result.flat|];
    AppendSlot(g, cache, ends, state, bits, list, result, newEnds);
    ListLength(list, g, FlagsOf(bits), state);
    PigeonHole(list, |g|);
    MulAdd(|ends|, |g|);
  }

  lemma NextState(g: Graph, c: Cache, ends: seq<nat>, state: nat)
    requires FilledUpTo(g, c, ends, state, Columns(c.conditional))
    ensures FilledUpTo(g, c, ends, state + 1, 0)
  {
    forall s: nat, b: nat | s < state + 1 && b < Columns(c.conditional)
      ensures SlotFilled(g, c, ends, s, b)
    {
    }
  }

  /** The closures of `state` under the first `columns` flag combinations are all `[state]`. */
  ghost predicate Trivial(g: Graph, state: nat, columns: nat)
  {
    forall bits: nat :: bits < columns ==> Closure(g, FlagsOf(bits), state) == {state}
  }

  lemma SingletonClosure(list: seq<nat>, g: Graph, f: Flags, s: nat)
    requires ListsClosure(list, g, f, s) && list == [s]
    ensures Closure(g, f, s) == {s}
  {
    assert forall d: nat :: d in Closure(g, f, s) <==> d in list;
  }

  /** The slots of one state under every flag combination. */
  /** The marked states are trivial. */
  ghost predicate AllTrivial(g: Graph, trivial: seq<bool>, columns: nat)
  {
    forall k :: 0 <= k < |trivial| && trivial[k] ==> Trivial(g, k, columns)
  }

  /** A state is trivial as long as its closures are the state itself. */
  method StillTrivial(g: Graph, state: nat, bits: nat, list: seq<nat>, before: bool) returns (isTrivial: bool)
    requires state < |g| && ListsClosure(list, g, FlagsOf(bits), state) && (before ==> Trivial(g, state, bits))
    ensures isTrivial ==> Trivial(g, state, bits + 1)
  {
    isTrivial := before;
    if isTrivial {
      if |list| != 1 || list[0] != state {
        isTrivial := false;
      } else {
        SingletonClosure(list, g, FlagsOf(bits), state);
      }
    }
  }

  method FillState(builder: ClosureBuilder, g: Graph, cache: Cache, state: nat, ghost ends: seq<nat>)
      returns (ok: bool, result: Cache, isTrivial: bool, ghost newEnds: seq<nat>, ghost upTo: nat)
    requires builder.Valid(|g|) && InRange(g) && state < |g|
    requires FilledUpTo(g, cache, ends, state, 0)
    modifies builder
    ensures builder.Valid(|g|)
    ensures ok <==> |result.flat| <= MAX_CLOSURE_CACHE_ENTRIES
    ensures upTo <= Columns(cache.conditional) && (ok ==> upTo == Columns(cache.conditional))
    ensures |result.flat| == |cache.flat| + StateEntries(g, state, upTo)
    ensures result.conditional == cache.conditional
    ensures ok ==> FilledUpTo(g, result, newEnds, state + 1, 0)
    ensures ok && isTrivial ==> Trivial(g, state, Columns(cache.conditional))
    ensures |cache.flat| <= |ends| * |g| ==> |result.flat| <= |newEnds| * |g| && |newEnds| <= CacheSlot(cache.conditional, |g|, 0)
  {
    var columns := Columns(cache.conditional);
    result, newEnds, isTrivial := cache, ends, true;
    for bits := 0 to columns
      invariant builder.Valid(|g|) && result.conditional == cache.conditional
      invariant FilledUpTo(g, result, newEnds, state, bits)
      invariant |result.flat| == |cache.flat| + StateEntries(g, state, bits)
      invariant |cache.flat| <= |ends| * |g| ==> |result.flat| <= |newEnds| * |g|
      invariant bits > 0 ==> |result.flat| <= MAX_CLOSURE_CACHE_ENTRIES
      invariant isTrivial ==> Trivial(g, state, bits)
    {
      var list;
      result, list, newEnds := FillSlot(builder, g, result, state, bits, newEnds);
      if |result.flat| > MAX_CLOSURE_CACHE_ENTRIES {
        return false, result, isTrivial, newEnds, bits + 1;
      }
      isTrivial := StillTrivial(g, state, bits, list, isTrivial);
    }
    NextState(g, result, newEnds, state);
    ok, upTo := true, columns;
  }

  /** Recording the end of the last slot completes the cache. */
  lemma FilledIsComplete(g: Graph, c: Cache, ends: seq<nat>)
    requires FilledUpTo(g, c, ends, |g|, 0) && (!c.conditional ==> Unconditional(g))
    ensures Cache(c.conditional, c.flat, c.offsets[|ends| := |c.flat|]).Complete(g)
  {
    var d := Cache(c.conditional, c.flat, c.offsets[|ends| := |c.flat|]);
    forall s: nat, b: nat | s < |g| && b < Columns(c.conditional)
      ensures d.SlotLists(g, s, b)
    {
      assert SlotFilled(g, c, ends, s, b);
    }
  }

  /** The closures of the states below `state` are in the cache, which has not exceeded its bound. */
  ghost predicate Filling(g: Graph, conditional: bool, cache: Cache, trivial: seq<bool>, ends: seq<nat>, state: nat)
    requires state <= |g|
  {
    && cache.conditional == conditional && FilledUpTo(g, cache, ends, state, 0)
    && |cache.flat| <= MAX_CLOSURE_CACHE_ENTRIES && |cache.flat| <= |ends| * |g|
    && |cache.flat| == CacheEntries(g, Columns(conditional), state)
    && |trivial| == state && AllTrivial(g, trivial, Columns(conditional))
  }

  /** Adds the closures of one more state. */
  method FillNext(builder: ClosureBuilder, g: Graph, conditional: bool, cache: Cache, trivial: seq<bool>, state: nat, ghost ends: seq<nat>)
      returns (ok: bool, cache': Cache, trivial': seq<bool>, ghost ends': seq<nat>)
    requires builder.Valid(|g|) && InRange(g) && state < |g| && Filling(g, conditional, cache, trivial, ends, state)
    modifies builder
    ensures builder.Valid(|g|)
    ensures ok ==> Filling(g, conditional, cache', trivial', ends', state + 1)
    ensures !ok ==> !CacheFits(g, conditional) && CacheSlot(conditional, |g|, 0) * |g| > MAX_CLOSURE_CACHE_ENTRIES
  {
    var isTrivial;
    ghost var upTo;
    ok, cache', isTrivial, ends', upTo := FillState(builder, g, cache, state, ends);
    trivial' := trivial + [isTrivial];
    if !ok {
      MulMonotone(|ends'|, CacheSlot(conditional, |g|, 0), |g|);
      EntriesOverflow(g, conditional, state, upTo);
    }
  }

  /**
   * Computes all closures in slot order. Fails only when the cache would
   * exceed its bound. `trivial` marks states whose closures are themselves.
   */
  method PrecomputeClosures(g: Graph, conditional: bool) returns (ok: bool, cache: Cache, trivial: seq<bool>)
    requires InRange(g) && (!conditional ==> Unconditional(g))
    ensures ok ==> cache.Complete(g) && cache.conditional == conditional
    ensures ok ==> |trivial| == |g| && AllTrivial(g, trivial, Columns(conditional))
    ensures ok <==> CacheFits(g, conditional)
    ensures CacheSlot(conditional, |g|, 0) * |g| <= MAX_CLOSURE_CACHE_ENTRIES ==> ok
  {
    cache := Cache(conditional, [], seq(CacheSlot(conditional, |g|, 0) + 1, _ => 0));
    trivial := [];
    ghost var ends: seq<nat> := [];
    var builder := new ClosureBuilder(|g|);
    for state := 0 to |g|
      invariant builder.Valid(|g|) && Filling(g, conditional, cache, trivial, ends, state)
    {
      ok, cache, trivial, ends := FillNext(builder, g, conditional, cache, trivial, state, ends);
      if !ok {
        return;
      }
    }
    FilledIsComplete(g, cache, ends);
    ok, cache := true, Cache(conditional, cache.flat, cache.offsets[CacheSlot(conditional, |g|, 0) := |cache.flat|]);
  }
}
