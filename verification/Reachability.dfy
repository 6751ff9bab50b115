// Which states are alive after each rune, and why the accept state is alive
// exactly where the compiled regex matches.

module Reachability {
  import opened Options
  import opened RegexSemantics
  import opened Nfa

  /** Pointers never leave the graph. */
  ghost predicate InRange(g: Graph)
  {
    forall k :: 0 <= k < |g| ==> PtrInRange(g, g[k].next) && PtrInRange(g, g[k].alt)
  }

  ghost predicate PtrInRange(g: Graph, p: Ptr) { p.To? ==> p.id < |g| }

  /** States that consume a rune have a successor. */
  ghost predicate Linked(g: Graph)
  {
    InRange(g) && forall k :: 0 <= k < |g| && g[k].tag.IsTerminal() && !g[k].tag.Match? ==> g[k].next.To?
  }

  // ---------------------------------------------------------------------
  // Epsilon closures
  // ---------------------------------------------------------------------

  /** A move that consumes nothing, under the given boundary conditions. */
  ghost predicate EpsStep(g: Graph, f: Flags, s: nat, d: nat)
  {
    s < |g| &&
    match g[s].tag
    case Split => To(d) == g[s].next || To(d) == g[s].alt
    case CaptureOpen(_) => To(d) == g[s].next
    case CaptureClose(_) => To(d) == g[s].next
    case tag => Passes(tag, f) && To(d) == g[s].next
  }

  ghost predicate EpsRun(g: Graph, f: Flags, n: nat, s: nat, d: nat)
    decreases n
  {
    if n == 0 then s == d
    else exists m: nat :: EpsStep(g, f, s, m) && EpsRun(g, f, n - 1, m, d)
  }

  ghost predicate EpsReach(g: Graph, f: Flags, s: nat, d: nat)
  {
    exists n: nat :: EpsRun(g, f, n, s, d)
  }

  /** The terminal states reachable from `s` without consuming a rune. */
  ghost function Closure(g: Graph, f: Flags, s: nat): set<nat>
  {
    set d: nat | d < |g| && g[d].tag.IsTerminal() && EpsReach(g, f, s, d)
  }

  lemma {:induction false} EpsRunSnoc(g: Graph, f: Flags, n: nat, s: nat, m: nat, d: nat)
    requires EpsRun(g, f, n, s, m) && EpsStep(g, f, m, d)
    ensures EpsRun(g, f, n + 1, s, d)
    decreases n
  {
    if n == 0 {
      assert EpsRun(g, f, 0, d, d);
    } else {
      var u: nat :| EpsStep(g, f, s, u) && EpsRun(g, f, n - 1, u, m);
      EpsRunSnoc(g, f, n - 1, u, m, d);
    }
  }

  lemma EpsReachSnoc(g: Graph, f: Flags, s: nat, m: nat, d: nat)
    requires EpsReach(g, f, s, m) && EpsStep(g, f, m, d)
    ensures EpsReach(g, f, s, d)
  {
    var n: nat :| EpsRun(g, f, n, s, m);
    EpsRunSnoc(g, f, n, s, m, d);
  }

  lemma EpsReachSelf(g: Graph, f: Flags, s: nat)
    ensures EpsReach(g, f, s, s)
  {
    assert EpsRun(g, f, 0, s, s);
  }

  /** A set that contains `s` and is closed under epsilon moves contains all that `s` reaches. */
  lemma {:induction false} ClosedContains(g: Graph, f: Flags, n: nat, s: nat, d: nat, v: set<nat>)
    requires EpsRun(g, f, n, s, d) && s in v
    requires forall x: nat, y: nat :: x in v && EpsStep(g, f, x, y) ==> y in v
    ensures d in v
    decreases n
  {
    if n > 0 {
      var m: nat :| EpsStep(g, f, s, m) && EpsRun(g, f, n - 1, m, d);
      ClosedContains(g, f, n - 1, m, d, v);
    }
  }

  // ---------------------------------------------------------------------
  // State sets
  // ---------------------------------------------------------------------

  /** The states that are alive after one more rune. */
  ghost function Advance(g: Graph, t: Subject, live: set<nat>, i: nat): set<nat>
    requires i < |t.runes|
  {
    set x, y | x in live && y in Successors(g, t, x, i) :: y
  }

  ghost function Successors(g: Graph, t: Subject, x: nat, i: nat): set<nat>
    requires i < |t.runes|
  {
    if x < |g| && Accepts(t.classes, g[x].tag, t.runes[i]) && g[x].next.To? then
      Closure(g, FlagsAt(t, i + 1), g[x].next.id)
    else {}
  }

  lemma AdvanceAdds(g: Graph, t: Subject, live: set<nat>, x: nat, i: nat)
    requires i < |t.runes|
    ensures Advance(g, t, live + {x}, i) == Advance(g, t, live, i) + Successors(g, t, x, i)
  {
  }

  /** The terminal states alive at boundary `i`. */
  ghost function Alive(g: Graph, t: Subject, start: nat, i: nat): set<nat>
    requires i <= |t.runes|
    decreases i
  {
    if i == 0 then Closure(g, FlagsAt(t, 0), start)
    else Advance(g, t, Alive(g, t, start, i - 1), i - 1)
  }

  /** Once no state is alive, none ever is. */
  lemma {:induction false} DeadStaysDead(g: Graph, t: Subject, start: nat, i: nat, j: nat)
    requires i <= j <= |t.runes| && Alive(g, t, start, i) == {}
    ensures Alive(g, t, start, j) == {}
    decreases j
  {
    if i < j {
      DeadStaysDead(g, t, start, i, j - 1);
    }
  }

  // ---------------------------------------------------------------------
  // State sets describe runs
  // ---------------------------------------------------------------------

  /** A run without captures. */
  function Bare(s: nat, i: nat): Config { Config(s, i, []) }

  lemma {:induction false} EpsRunIsRun(g: Graph, t: Subject, i: nat, n: nat, s: nat, d: nat)
    requires t.Valid() && i <= |t.runes| && EpsRun(g, FlagsAt(t, i), n, s, d)
    ensures Run(g, t, n, Bare(s, i), Bare(d, i))
    decreases n
  {
    if n > 0 {
      var m: nat :| EpsStep(g, FlagsAt(t, i), s, m) && EpsRun(g, FlagsAt(t, i), n - 1, m, d);
      EpsRunIsRun(g, t, i, n - 1, m, d);
      assert Step(g, t, Bare(s, i), Bare(m, i));
    }
  }

  /** Alive states are reachable. */
  lemma {:induction false} LiveIsReached(g: Graph, t: Subject, start: nat, i: nat, y: nat)
    requires t.Valid() && i <= |t.runes| && y in Alive(g, t, start, i)
    ensures y < |g| && g[y].tag.IsTerminal()
    ensures Reaches(g, t, Bare(start, 0), Bare(y, i))
    decreases i
  {
    if i == 0 {
      var n: nat :| EpsRun(g, FlagsAt(t, 0), n, start, y);
      EpsRunIsRun(g, t, 0, n, start, y);
    } else {
      var x :| x in Alive(g, t, start, i - 1) && y in Successors(g, t, x, i - 1);
      LiveIsReached(g, t, start, i - 1, x);
      var z := g[x].next.id;
      var n: nat :| EpsRun(g, FlagsAt(t, i), n, z, y);
      EpsRunIsRun(g, t, i, n, z, y);
      StepReaches(g, t, Bare(x, i - 1), Bare(z, i));
      ReachesTrans(g, t, Bare(start, 0), Bare(x, i - 1), Bare(z, i));
      assert Reaches(g, t, Bare(z, i), Bare(y, i));
      ReachesTrans(g, t, Bare(start, 0), Bare(z, i), Bare(y, i));
    }
  }

  /** A run to a terminal state first settles in a terminal state of the closure. */
  lemma {:induction false} FirstTerminal(g: Graph, t: Subject, n: nat, s: nat, i: nat, y: nat, j: nat) returns (u: nat, m: nat)
    requires t.Valid() && i <= |t.runes| && Run(g, t, n, Bare(s, i), Bare(y, j))
    requires y < |g| && g[y].tag.IsTerminal()
    ensures u in Closure(g, FlagsAt(t, i), s)
    ensures m <= n && Run(g, t, m, Bare(u, i), Bare(y, j))
    decreases n
  {
    if s < |g| && g[s].tag.IsTerminal() {
      EpsReachSelf(g, FlagsAt(t, i), s);
      u, m := s, n;
    } else {
      var z :| Step(g, t, Bare(s, i), z) && Run(g, t, n - 1, z, Bare(y, j));
      assert z == Bare(z.state, i) && EpsStep(g, FlagsAt(t, i), s, z.state);
      u, m := FirstTerminal(g, t, n - 1, z.state, i, y, j);
      var k: nat :| EpsRun(g, FlagsAt(t, i), k, z.state, u);
      assert EpsRun(g, FlagsAt(t, i), k + 1, s, u);
    }
  }

  /** What an alive state reaches stays alive. */
  lemma {:induction false} RunStaysLive(g: Graph, t: Subject, start: nat, n: nat, x: nat, i: nat, y: nat, j: nat)
    requires t.Valid() && i <= |t.runes| && x in Alive(g, t, start, i)
    requires Run(g, t, n, Bare(x, i), Bare(y, j)) && y < |g| && g[y].tag.IsTerminal()
    ensures j <= |t.runes| && y in Alive(g, t, start, j)
    decreases n
  {
    if n > 0 {
      LiveIsReached(g, t, start, i, x);
      var z :| Step(g, t, Bare(x, i), z) && Run(g, t, n - 1, z, Bare(y, j));
      assert z == Bare(z.state, i + 1);
      var u, m := FirstTerminal(g, t, n - 1, z.state, i + 1, y, j);
      assert u in Successors(g, t, x, i);
      RunStaysLive(g, t, start, m, u, i + 1, y, j);
    }
  }

  /** A terminal state is alive at `i` exactly when the start state reaches it there. */
  lemma LiveIffReached(g: Graph, t: Subject, start: nat, i: nat, y: nat)
    requires t.Valid() && i <= |t.runes| && y < |g| && g[y].tag.IsTerminal()
    ensures y in Alive(g, t, start, i) <==> Reaches(g, t, Bare(start, 0), Bare(y, i))
  {
    if y in Alive(g, t, start, i) {
      LiveIsReached(g, t, start, i, y);
    }
    if Reaches(g, t, Bare(start, 0), Bare(y, i)) {
      var n: nat :| Run(g, t, n, Bare(start, 0), Bare(y, i));
      var u, m := FirstTerminal(g, t, n, start, 0, y, i);
      RunStaysLive(g, t, start, m, u, 0, y, i);
    }
  }

  // ---------------------------------------------------------------------
  // The accept state
  // ---------------------------------------------------------------------

  /** An automaton whose state 0 accepts, for a regex or for the empty pattern. */
  ghost predicate Recognizes(g: Graph, start: nat, r: Option<Regex>)
  {
    && Linked(g)
    && start < |g|
    && g[0].tag.Match?
    && (r.Some? ==> Compiled(g, r.value, 1, To(0)) && start == Entry(r.value, 1))
    && (r.None? ==> start == 0)
  }

  /** The language of a pattern; the empty pattern matches the empty string only. */
  ghost predicate PatternMatches(r: Option<Regex>, t: Subject, i: nat, j: nat)
  {
    if r.None? then i == j <= |t.runes| else Matches(r.value, t, i, j)
  }

  /** The accept state is alive at boundary `i` exactly when the pattern matches the first `i` runes. */
  lemma {:induction false} AcceptIffMatches(g: Graph, start: nat, r: Option<Regex>, t: Subject, i: nat)
    requires t.Valid() && i <= |t.runes| && Recognizes(g, start, r)
    ensures 0 in Alive(g, t, start, i) <==> PatternMatches(r, t, 0, i)
  {
    var x, y := Bare(start, 0), Bare(0, i);
    LiveIffReached(g, t, start, i, 0);
    if Reaches(g, t, x, y) {
      var n: nat :| Run(g, t, n, x, y);
      if r.Some? {
        var j, d, m := AcceptingRunMatches(g, r.value, 1, 0, t, n, 0, [], y);
        assert m == 0;
        CapturedMatches(r.value, t, 0, [], i, d);
      }
    }
    if PatternMatches(r, t, 0, i) {
      if r.Some? {
        var d := MatchesCaptured(r.value, t, 0, [], i);
        CapturedMatches(r.value, t, 0, [], i, d);
        MatchReaches(g, r.value, 1, 0, t, 0, [], i, d);
      } else {
        assert Run(g, t, 0, x, y);
      }
    }
  }

  // ---------------------------------------------------------------------
  // Compiled automata are linked
  // ---------------------------------------------------------------------

  ghost predicate StateLinked(g: Graph, k: nat)
    requires k < |g|
  {
    && PtrInRange(g, g[k].next) && PtrInRange(g, g[k].alt)
    && g[k].next.To?
    && !g[k].tag.Match?
  }

  lemma {:induction false} CompiledLinked(g: Graph, r: Regex, lo: nat, out: nat, k: nat)
    requires Compiled(g, r, lo, To(out)) && out < |g| && lo <= k < lo + Size(r)
    ensures StateLinked(g, k)
    decreases r, 1
  {
    match r
    case Leaf(_) =>
    case Concat(a, b) => ConcatLinked(g, a, b, lo, out, k);
    case Either(a, b) => EitherLinked(g, a, b, lo, out, k);
    case Repeat(_, _, a) =>
      if k < lo + Size(a) {
        CompiledLinked(g, a, lo, BodyOut(r, lo, To(out)).id, k);
      }
    case Group(_, a) =>
      if k < lo + Size(a) {
        CompiledLinked(g, a, lo, lo + Size(a), k);
      }
  }

  lemma {:induction false} ConcatLinked(g: Graph, a: Regex, b: Regex, lo: nat, out: nat, k: nat)
    requires Compiled(g, Concat(a, b), lo, To(out)) && out < |g| && lo <= k < lo + Size(a) + Size(b)
    ensures StateLinked(g, k)
    decreases Concat(a, b), 0
  {
    ConcatParts(g, a, b, lo, To(out));
    if k < lo + Size(a) {
      CompiledLinked(g, a, lo, Entry(b, lo + Size(a)), k);
    } else {
      CompiledLinked(g, b, lo + Size(a), out, k);
    }
  }

  lemma {:induction false} EitherLinked(g: Graph, a: Regex, b: Regex, lo: nat, out: nat, k: nat)
    requires Compiled(g, Either(a, b), lo, To(out)) && out < |g| && lo <= k <= lo + Size(a) + Size(b)
    ensures StateLinked(g, k)
    decreases Either(a, b), 0
  {
    EitherParts(g, a, b, lo, To(out));
    if k < lo + Size(a) {
      CompiledLinked(g, a, lo, out, k);
    } else if k < lo + Size(a) + Size(b) {
      CompiledLinked(g, b, lo + Size(a), out, k);
    }
  }

  /** What the builder returns recognizes its operand. */
  lemma CompiledRecognizes(g: Graph, r: Regex)
    requires |g| == 1 + Size(r) && g[0] == State(Match, Null, Null) && Compiled(g, r, 1, To(0))
    ensures Recognizes(g, Entry(r, 1), Some(r))
    ensures forall k :: 1 <= k < |g| ==> !g[k].tag.Match?
  {
    forall k | 0 <= k < |g|
      ensures PtrInRange(g, g[k].next) && PtrInRange(g, g[k].alt)
      ensures k > 0 ==> g[k].next.To? && !g[k].tag.Match?
    {
      if k > 0 {
        CompiledLinked(g, r, 1, 0, k);
      }
    }
  }
}
