// Thompson automata: their shape, their runs, and why the runs of a compiled
// regex are exactly its matches.

module Nfa {
  import opened RegexSemantics

  /** A state pointer. The builder leaves pointers null until they are patched. */
  datatype Ptr = Null | To(id: nat)

  datatype State = State(tag: Label, next: Ptr, alt: Ptr)

  /** States are referred to by their index in creation order. */
  type Graph = seq<State>

  // ---------------------------------------------------------------------
  // The shape Thompson's construction gives the states of a regex
  // ---------------------------------------------------------------------

  /** The number of states created for `r`. */
  function Size(r: Regex): (n: nat)
    ensures n >= 1
  {
    match r
    case Leaf(_) => 1
    case Concat(a, b) => Size(a) + Size(b)
    case Either(a, b) => Size(a) + Size(b) + 1
    case Repeat(_, _, a) => Size(a) + 1
    case Group(_, a) => Size(a) + 2
  }

  /** The state at which `r` is entered when its states are numbered from `lo`. */
  function Entry(r: Regex, lo: nat): (s: nat)
    ensures lo <= s < lo + Size(r)
  {
    match r
    case Leaf(_) => lo
    case Concat(a, _) => Entry(a, lo)
    case Either(_, _) => lo + Size(r) - 1
    case Repeat(kind, _, a) => if kind.OneOrMore? then Entry(a, lo) else lo + Size(a)
    case Group(_, a) => lo + Size(a) + 1
  }

  /** A greedy split tries `body` first, a lazy one tries `skip` first. */
  function SplitState(lazy: bool, body: Ptr, skip: Ptr): State
  {
    if lazy then State(Split, skip, body) else State(Split, body, skip)
  }

  /**
   * States lo, ..., lo + Size(r) - 1 of `g` are the automaton of `r`,
   * continuing at `out`. With `out` null, its exits are still dangling.
   */
  ghost predicate Compiled(g: Graph, r: Regex, lo: nat, out: Ptr)
    decreases r, |g|
  {
    var hi := lo + Size(r);
    hi <= |g| &&
    match r
    case Leaf(tag) => g[lo] == State(tag, out, Null)
    case Concat(a, b) =>
      Compiled(g, a, lo, To(Entry(b, lo + Size(a)))) && Compiled(g, b, lo + Size(a), out)
    case Either(a, b) =>
      Compiled(g, a, lo, out) && Compiled(g, b, lo + Size(a), out) &&
      g[hi - 1] == State(Split, To(Entry(a, lo)), To(Entry(b, lo + Size(a))))
    case Repeat(_, lazy, a) =>
      Compiled(g, a, lo, BodyOut(r, lo, out)) &&
      g[hi - 1] == SplitState(lazy, To(Entry(a, lo)), out)
    case Group(id, a) =>
      Compiled(g, a, lo, BodyOut(r, lo, out)) &&
      g[hi - 2] == State(CaptureClose(id), out, Null) &&
      g[hi - 1] == State(CaptureOpen(id), To(Entry(a, lo)), Null)
  }

  /** Graphs that agree on states lo, ..., hi - 1. */
  ghost predicate Agree(g: Graph, h: Graph, lo: nat, hi: nat)
  {
    hi <= |h| && hi <= |g| && forall k :: lo <= k < hi ==> h[k] == g[k]
  }

  /** Where the body of a repetition or group continues. */
  ghost function BodyOut(r: Regex, lo: nat, out: Ptr): Ptr
    requires r.Repeat? || r.Group?
  {
    if r.Repeat? && r.kind.ZeroOrOne? then out else To(lo + Size(r.body))
  }

  /** Only the states of the fragment matter. */
  lemma {:induction false} CompiledLocal(g: Graph, h: Graph, r: Regex, lo: nat, out: Ptr)
    requires Compiled(g, r, lo, out) && Agree(g, h, lo, lo + Size(r))
    ensures Compiled(h, r, lo, out)
    decreases r, 1
  {
    match r
    case Leaf(_) =>
    case Concat(a, b) => ConcatLocal(g, h, a, b, lo, out);
    case Either(a, b) => EitherLocal(g, h, a, b, lo, out);
    case Repeat(_, _, a) => CompiledLocal(g, h, a, lo, BodyOut(r, lo, out));
    case Group(_, a) => CompiledLocal(g, h, a, lo, BodyOut(r, lo, out));
  }

  lemma AgreeParts(g: Graph, h: Graph, lo: nat, mid: nat, hi: nat)
    requires Agree(g, h, lo, hi) && lo <= mid <= hi
    ensures Agree(g, h, lo, mid) && Agree(g, h, mid, hi)
  {
  }

  lemma {:induction false} ConcatParts(g: Graph, a: Regex, b: Regex, lo: nat, out: Ptr)
    ensures Compiled(g, Concat(a, b), lo, out) <==>
            lo + Size(a) + Size(b) <= |g| && Compiled(g, a, lo, To(Entry(b, lo + Size(a)))) && Compiled(g, b, lo + Size(a), out)
  {
  }

  ghost predicate EitherShape(g: Graph, a: Regex, b: Regex, lo: nat, out: Ptr)
  {
    lo + Size(a) + Size(b) < |g| && Compiled(g, a, lo, out) && Compiled(g, b, lo + Size(a), out) &&
    g[lo + Size(a) + Size(b)] == State(Split, To(Entry(a, lo)), To(Entry(b, lo + Size(a))))
  }

  lemma {:induction false} EitherParts(g: Graph, a: Regex, b: Regex, lo: nat, out: Ptr)
    ensures Compiled(g, Either(a, b), lo, out) <==> EitherShape(g, a, b, lo, out)
    ensures Entry(Either(a, b), lo) == lo + Size(a) + Size(b)
  {
  }

  lemma {:induction false} ConcatLocal(g: Graph, h: Graph, a: Regex, b: Regex, lo: nat, out: Ptr)
    requires Compiled(g, Concat(a, b), lo, out) && Agree(g, h, lo, lo + Size(Concat(a, b)))
    ensures Compiled(h, Concat(a, b), lo, out)
    decreases Concat(a, b), 0
  {
    ConcatParts(g, a, b, lo, out);
    AgreeParts(g, h, lo, lo + Size(a), lo + Size(a) + Size(b));
    CompiledLocal(g, h, a, lo, To(Entry(b, lo + Size(a))));
    CompiledLocal(g, h, b, lo + Size(a), out);
    ConcatParts(h, a, b, lo, out);
  }

  lemma {:induction false} EitherLocal(g: Graph, h: Graph, a: Regex, b: Regex, lo: nat, out: Ptr)
    requires Compiled(g, Either(a, b), lo, out) && Agree(g, h, lo, lo + Size(Either(a, b)))
    ensures Compiled(h, Either(a, b), lo, out)
    decreases Either(a, b), 0
  {
    var mid, end := lo + Size(a), lo + Size(a) + Size(b);
    EitherParts(g, a, b, lo, out);
    AgreeParts(g, h, lo, mid, end + 1);
    AgreeParts(g, h, mid, end, end + 1);
    assert h[end] == g[end];
    CompiledLocal(g, h, a, lo, out);
    CompiledLocal(g, h, b, mid, out);
    EitherParts(h, a, b, lo, out);
  }

  // ---------------------------------------------------------------------
  // Runs
  // ---------------------------------------------------------------------

  /** A state, the boundary reached in the subject, and the captures so far. */
  datatype Config = Config(state: nat, at: nat, caps: Captures)

  ghost predicate Step(g: Graph, t: Subject, x: Config, y: Config)
    requires t.Valid()
  {
    x.state < |g| && x.at <= |t.runes| &&
    var s := g[x.state];
    match s.tag
    case Split => y.at == x.at && y.caps == x.caps && To(y.state) in {s.next, s.alt}
    case CaptureOpen(id) =>
      y.at == x.at && To(y.state) == s.next && y.caps == SetSlot(x.caps, 2 * id, t.offsets[x.at])
    case CaptureClose(id) =>
      y.at == x.at && To(y.state) == s.next && y.caps == SetSlot(x.caps, 2 * id + 1, t.offsets[x.at])
    case Match => false
    case tag => LeafMatches(tag, t, x.at, y.at) && To(y.state) == s.next && y.caps == x.caps
  }

  ghost predicate Run(g: Graph, t: Subject, n: nat, x: Config, y: Config)
    requires t.Valid()
    decreases n
  {
    if n == 0 then x == y
    else exists z :: Step(g, t, x, z) && Run(g, t, n - 1, z, y)
  }

  ghost predicate Reaches(g: Graph, t: Subject, x: Config, y: Config)
    requires t.Valid()
  {
    exists n: nat :: Run(g, t, n, x, y)
  }

  lemma {:induction false} RunTrans(g: Graph, t: Subject, n: nat, x: Config, y: Config, m: nat, z: Config)
    requires t.Valid() && Run(g, t, n, x, y) && Run(g, t, m, y, z)
    ensures Run(g, t, n + m, x, z)
    decreases n
  {
    if n > 0 {
      var u :| Step(g, t, x, u) && Run(g, t, n - 1, u, y);
      RunTrans(g, t, n - 1, u, y, m, z);
    }
  }

  lemma ReachesTrans(g: Graph, t: Subject, x: Config, y: Config, z: Config)
    requires t.Valid() && Reaches(g, t, x, y) && Reaches(g, t, y, z)
    ensures Reaches(g, t, x, z)
  {
    var n: nat :| Run(g, t, n, x, y);
    var m: nat :| Run(g, t, m, y, z);
    RunTrans(g, t, n, x, y, m, z);
  }

  lemma StepReaches(g: Graph, t: Subject, x: Config, y: Config)
    requires t.Valid() && Step(g, t, x, y)
    ensures Reaches(g, t, x, y)
  {
    assert Run(g, t, 0, y, y);
    assert Run(g, t, 1, x, y);
  }

  /** Reachability as a value, so that a proof can go by its laws alone. */
  type Reach = (Config, Config) -> bool

  ghost predicate IsReach(reach: Reach, g: Graph, t: Subject)
  {
    t.Valid() && forall x: Config, y: Config {:trigger Reaches(g, t, x, y)} :: reach(x, y) <==> Reaches(g, t, x, y)
  }

  lemma ReachTrans(reach: Reach, g: Graph, t: Subject, x: Config, y: Config, z: Config)
    requires IsReach(reach, g, t) && reach(x, y) && reach(y, z)
    ensures reach(x, z)
  {
    assert Reaches(g, t, x, y) && Reaches(g, t, y, z);
    ReachesTrans(g, t, x, y, z);
  }

  lemma StepReach(reach: Reach, g: Graph, t: Subject, x: Config, y: Config)
    requires IsReach(reach, g, t) && Step(g, t, x, y)
    ensures reach(x, y)
  {
    StepReaches(g, t, x, y);
  }

  /** A split state leads to either of its successors. */
  lemma SplitReach(reach: Reach, g: Graph, t: Subject, s: nat, d: nat, i: nat, c: Captures)
    requires IsReach(reach, g, t) && s < |g| && i <= |t.runes| && g[s].tag == Split && (g[s].next == To(d) || g[s].alt == To(d))
    ensures reach(Config(s, i, c), Config(d, i, c))
  {
    StepReach(reach, g, t, Config(s, i, c), Config(d, i, c));
  }

  /** A state that opens a group records its start, one that closes it records its end. */
  lemma OpenReach(reach: Reach, g: Graph, t: Subject, s: nat, id: nat, d: nat, i: nat, c: Captures)
    requires IsReach(reach, g, t) && s < |g| && i <= |t.runes| && g[s].tag == CaptureOpen(id) && g[s].next == To(d)
    ensures reach(Config(s, i, c), Config(d, i, SetSlot(c, 2 * id, t.offsets[i])))
  {
    StepReach(reach, g, t, Config(s, i, c), Config(d, i, SetSlot(c, 2 * id, t.offsets[i])));
  }

  lemma CloseReach(reach: Reach, g: Graph, t: Subject, s: nat, id: nat, d: nat, i: nat, c: Captures)
    requires IsReach(reach, g, t) && s < |g| && i <= |t.runes| && g[s].tag == CaptureClose(id) && g[s].next == To(d)
    ensures reach(Config(s, i, c), Config(d, i, SetSlot(c, 2 * id + 1, t.offsets[i])))
  {
    StepReach(reach, g, t, Config(s, i, c), Config(d, i, SetSlot(c, 2 * id + 1, t.offsets[i])));
  }

  lemma LeafReach(reach: Reach, g: Graph, t: Subject, tag: Operand, s: nat, d: nat, i: nat, c: Captures, j: nat, e: Captures)
    requires IsReach(reach, g, t) && Compiled(g, Leaf(tag), s, To(d)) && Captured(Leaf(tag), t, i, c, j, e)
    ensures reach(Config(s, i, c), Config(d, j, e))
  {
    StepReach(reach, g, t, Config(s, i, c), Config(d, j, e));
  }

  // ---------------------------------------------------------------------
  // Every capturing match is a run of the compiled automaton
  // ---------------------------------------------------------------------

  /** A capturing match of a compiled regex is a run of the automaton, with the same captures. */
  lemma MatchReaches(g: Graph, r: Regex, lo: nat, out: nat, t: Subject, i: nat, c: Captures, j: nat, d: Captures)
    requires t.Valid() && Compiled(g, r, lo, To(out)) && Captured(r, t, i, c, j, d)
    ensures Reaches(g, t, Config(Entry(r, lo), i, c), Config(out, j, d))
  {
    var x, y := Config(Entry(r, lo), i, c), Config(out, j, d);
    var reach: Reach := (u, v) => Reaches(g, t, u, v);
    MatchRuns(reach, g, r, lo, out, t, i, c, j, d);
    assert reach(x, y);
  }

  lemma {:induction false} MatchRuns(reach: Reach, g: Graph, r: Regex, lo: nat, out: nat, t: Subject, i: nat, c: Captures, j: nat, d: Captures)
    requires IsReach(reach, g, t) && Compiled(g, r, lo, To(out)) && Captured(r, t, i, c, j, d)
    ensures reach(Config(Entry(r, lo), i, c), Config(out, j, d))
    decreases r, 2, 0
  {
    match r
    case Leaf(tag) => LeafReach(reach, g, t, tag, lo, out, i, c, j, d);
    case Concat(a, b) => ConcatRuns(reach, g, a, b, lo, out, t, i, c, j, d);
    case Either(a, b) =>
      EitherParts(g, a, b, lo, To(out));
      EitherRuns(reach, g, a, b, lo, out, t, i, c, j, d);
    case Repeat(kind, lazy, a) => RepeatRuns(reach, g, kind, lazy, a, lo, out, t, i, c, j, d);
    case Group(id, a) => GroupRuns(reach, g, id, a, lo, out, t, i, c, j, d);
  }

  lemma {:induction false} ConcatRuns(reach: Reach, g: Graph, a: Regex, b: Regex, lo: nat, out: nat, t: Subject, i: nat, c: Captures, j: nat, d: Captures)
    requires IsReach(reach, g, t) && Compiled(g, Concat(a, b), lo, To(out)) && Captured(Concat(a, b), t, i, c, j, d)
    ensures reach(Config(Entry(a, lo), i, c), Config(out, j, d))
    decreases Concat(a, b), 1, 0
  {
    var k, m :| Captured(a, t, i, c, k, m) && Captured(b, t, k, m, j, d);
    var mid := Entry(b, lo + Size(a));
    MatchRuns(reach, g, a, lo, mid, t, i, c, k, m);
    MatchRuns(reach, g, b, lo + Size(a), out, t, k, m, j, d);
    ReachTrans(reach, g, t, Config(Entry(a, lo), i, c), Config(mid, k, m), Config(out, j, d));
  }

  lemma CapturedInRange(r: Regex, t: Subject, i: nat, c: Captures, j: nat, d: Captures)
    requires t.Valid() && Captured(r, t, i, c, j, d)
    ensures i <= j <= |t.runes|
  {
    CapturedMatches(r, t, i, c, j, d);
    MatchesInRange(r, t, i, j);
  }

  lemma {:induction false} EitherRuns(reach: Reach, g: Graph, a: Regex, b: Regex, lo: nat, out: nat, t: Subject, i: nat, c: Captures, j: nat, d: Captures)
    requires IsReach(reach, g, t) && EitherShape(g, a, b, lo, To(out))
    requires Captured(a, t, i, c, j, d) || Captured(b, t, i, c, j, d)
    ensures reach(Config(lo + Size(a) + Size(b), i, c), Config(out, j, d))
    decreases Either(a, b), 1, 0
  {
    var x, y := Config(lo + Size(a) + Size(b), i, c), Config(out, j, d);
    if Captured(a, t, i, c, j, d) {
      CapturedInRange(a, t, i, c, j, d);
      MatchRuns(reach, g, a, lo, out, t, i, c, j, d);
      SplitReach(reach, g, t, x.state, Entry(a, lo), i, c);
      ReachTrans(reach, g, t, x, Config(Entry(a, lo), i, c), y);
    } else {
      CapturedInRange(b, t, i, c, j, d);
      MatchRuns(reach, g, b, lo + Size(a), out, t, i, c, j, d);
      SplitReach(reach, g, t, x.state, Entry(b, lo + Size(a)), i, c);
      ReachTrans(reach, g, t, x, Config(Entry(b, lo + Size(a)), i, c), y);
    }
  }

  lemma {:induction false} RepeatRuns(reach: Reach, g: Graph, kind: RepeatKind, lazy: bool, a: Regex, lo: nat, out: nat, t: Subject,
                                      i: nat, c: Captures, j: nat, d: Captures)
    requires IsReach(reach, g, t) && Compiled(g, Repeat(kind, lazy, a), lo, To(out)) && Captured(Repeat(kind, lazy, a), t, i, c, j, d)
    ensures reach(Config(Entry(Repeat(kind, lazy, a), lo), i, c), Config(out, j, d))
    decreases Repeat(kind, lazy, a), 1, 0
  {
    var r := Repeat(kind, lazy, a);
    match kind
    case ZeroOrOne => OptionRuns(reach, g, lazy, a, lo, out, t, i, c, j, d);
    case ZeroOrMore =>
      var n: nat :| CapturedPower(a, n, t, i, c, j, d);
      LoopRuns(reach, g, r, lo, out, t, n, i, c, j, d);
    case OneOrMore =>
      var n: nat :| n >= 1 && CapturedPower(a, n, t, i, c, j, d);
      var k, m := FirstRound(a, n, t, i, c, j, d);
      MatchRuns(reach, g, a, lo, lo + Size(a), t, i, c, k, m);
      LoopRuns(reach, g, r, lo, out, t, n - 1, k, m, j, d);
      ReachTrans(reach, g, t, Config(Entry(a, lo), i, c), Config(lo + Size(a), k, m), Config(out, j, d));
  }

  lemma {:induction false} OptionRuns(reach: Reach, g: Graph, lazy: bool, a: Regex, lo: nat, out: nat, t: Subject,
                                      i: nat, c: Captures, j: nat, d: Captures)
    requires IsReach(reach, g, t) && Compiled(g, Repeat(ZeroOrOne, lazy, a), lo, To(out)) && Captured(Repeat(ZeroOrOne, lazy, a), t, i, c, j, d)
    ensures reach(Config(lo + Size(a), i, c), Config(out, j, d))
    decreases Repeat(ZeroOrOne, lazy, a), 0, 0
  {
    var r := Repeat(ZeroOrOne, lazy, a);
    CapturedMatches(r, t, i, c, j, d);
    MatchesInRange(r, t, i, j);
    var x, y := Config(lo + Size(a), i, c), Config(out, j, d);
    if Captured(a, t, i, c, j, d) {
      MatchRuns(reach, g, a, lo, out, t, i, c, j, d);
      SplitReach(reach, g, t, x.state, Entry(a, lo), i, c);
      ReachTrans(reach, g, t, x, Config(Entry(a, lo), i, c), y);
    } else {
      SplitReach(reach, g, t, x.state, out, i, c);
    }
  }

  lemma FirstRound(r: Regex, n: nat, t: Subject, i: nat, c: Captures, j: nat, d: Captures) returns (k: nat, m: Captures)
    requires t.Valid() && n >= 1 && CapturedPower(r, n, t, i, c, j, d)
    ensures Captured(r, t, i, c, k, m) && CapturedPower(r, n - 1, t, k, m, j, d)
    ensures i <= |t.runes|
  {
    k, m :| Captured(r, t, i, c, k, m) && CapturedPower(r, n - 1, t, k, m, j, d);
    CapturedMatches(r, t, i, c, k, m);
    MatchesInRange(r, t, i, k);
  }

  /** From the split state of a loop, `n` more rounds lead to the exit. */
  lemma {:induction false} LoopRuns(reach: Reach, g: Graph, r: Regex, lo: nat, out: nat, t: Subject, n: nat, i: nat, c: Captures, j: nat, d: Captures)
    requires r.Repeat? && !r.kind.ZeroOrOne?
    requires IsReach(reach, g, t) && Compiled(g, r, lo, To(out)) && CapturedPower(r.body, n, t, i, c, j, d)
    ensures reach(Config(lo + Size(r.body), i, c), Config(out, j, d))
    decreases r, 0, n
  {
    var a := r.body;
    var split := lo + Size(a);
    var x, y := Config(split, i, c), Config(out, j, d);
    if n == 0 {
      SplitReach(reach, g, t, split, out, i, c);
    } else {
      var k, m := FirstRound(a, n, t, i, c, j, d);
      MatchRuns(reach, g, a, lo, split, t, i, c, k, m);
      LoopRuns(reach, g, r, lo, out, t, n - 1, k, m, j, d);
      ReachTrans(reach, g, t, Config(Entry(a, lo), i, c), Config(split, k, m), y);
      SplitReach(reach, g, t, split, Entry(a, lo), i, c);
      ReachTrans(reach, g, t, x, Config(Entry(a, lo), i, c), y);
    }
  }

  lemma {:induction false} GroupRuns(reach: Reach, g: Graph, id: nat, a: Regex, lo: nat, out: nat, t: Subject, i: nat, c: Captures, j: nat, d: Captures)
    requires IsReach(reach, g, t) && Compiled(g, Group(id, a), lo, To(out)) && Captured(Group(id, a), t, i, c, j, d)
    ensures reach(Config(lo + Size(a) + 1, i, c), Config(out, j, d))
    decreases Group(id, a), 1, 0
  {
    var x, y := Config(lo + Size(a) + 1, i, c), Config(out, j, d);
    var c1 := SetSlot(c, 2 * id, t.offsets[i]);
    var m :| Captured(a, t, i, c1, j, m) && d == SetSlot(m, 2 * id + 1, t.offsets[j]);
    var inside, close := Config(Entry(a, lo), i, c1), Config(lo + Size(a), j, m);
    MatchRuns(reach, g, a, lo, close.state, t, i, c1, j, m);
    CapturedMatches(a, t, i, c1, j, m);
    CloseReach(reach, g, t, close.state, id, out, j, m);
    ReachTrans(reach, g, t, inside, close, y);
    OpenReach(reach, g, t, x.state, id, inside.state, i, c);
    ReachTrans(reach, g, t, x, inside, y);
  }

  // ---------------------------------------------------------------------
  // Every accepting run passes through a capturing match
  // ---------------------------------------------------------------------

  /** A configuration that has reached the accept state. */
  ghost predicate Accepting(g: Graph, y: Config)
  {
    y.state < |g| && g[y.state].tag.Match?
  }

  /** The runs to an accepting configuration `y`, by length and start, as a value. */
  type Finish = (nat, Config) -> bool

  ghost predicate IsFinish(run: Finish, g: Graph, t: Subject, y: Config)
  {
    && t.Valid() && Accepting(g, y)
    && forall n: nat, x: Config {:trigger Run(g, t, n, x, y)} :: run(n, x) <==> Run(g, t, n, x, y)
  }

  /**
   * A run that enters the automaton of `r` and ends in the accept state leaves
   * through the exit `out`, having matched `r` on the way.
   */
  lemma {:induction false} RunMatches(run: Finish, g: Graph, r: Regex, lo: nat, out: nat, t: Subject, n: nat, i: nat, c: Captures, y: Config)
      returns (j: nat, d: Captures, m: nat)
    requires IsFinish(run, g, t, y) && Compiled(g, r, lo, To(out))
    requires run(n, Config(Entry(r, lo), i, c))
    ensures Captured(r, t, i, c, j, d)
    ensures m < n && run(m, Config(out, j, d))
    decreases n, r, 2
  {
    match r
    case Leaf(tag) => j, d, m := LeafRun(run, g, tag, lo, out, t, n, i, c, y);
    case Concat(a, b) => j, d, m := ConcatMatches(run, g, a, b, lo, out, t, n, i, c, y);
    case Either(a, b) =>
      EitherParts(g, a, b, lo, To(out));
      j, d, m := EitherMatches(run, g, a, b, lo, out, t, n, i, c, y);
    case Repeat(kind, lazy, a) => j, d, m := RepeatMatches(run, g, kind, lazy, a, lo, out, t, n, i, c, y);
    case Group(id, a) => j, d, m := GroupMatches(run, g, id, a, lo, out, t, n, i, c, y);
  }

  /** A run that is not over yet takes a first step. */
  lemma FirstStep(run: Finish, g: Graph, t: Subject, n: nat, x: Config, y: Config) returns (z: Config)
    requires IsFinish(run, g, t, y) && run(n, x)
    requires x.state < |g| && !g[x.state].tag.Match?
    ensures n > 0 && Step(g, t, x, z) && run(n - 1, z)
  {
    assert Run(g, t, n, x, y);
    z :| Step(g, t, x, z) && Run(g, t, n - 1, z, y);
  }

  /** A run from a split state goes on from one of its successors. */
  lemma SplitFirst(run: Finish, g: Graph, t: Subject, n: nat, s: nat, a: nat, b: nat, i: nat, c: Captures, y: Config) returns (toA: bool)
    requires IsFinish(run, g, t, y) && run(n, Config(s, i, c)) && s < |g| && g[s].tag == Split
    requires {g[s].next, g[s].alt} == {To(a), To(b)}
    ensures n > 0 && i <= |t.runes| && if toA then run(n - 1, Config(a, i, c)) else run(n - 1, Config(b, i, c))
  {
    var z := FirstStep(run, g, t, n, Config(s, i, c), y);
    toA := z.state == a;
    assert To(z.state) in {To(a), To(b)};
    assert z == Config(z.state, i, c);
  }

  lemma OpenFirst(run: Finish, g: Graph, t: Subject, n: nat, s: nat, id: nat, d: nat, i: nat, c: Captures, y: Config)
    requires IsFinish(run, g, t, y) && run(n, Config(s, i, c)) && s < |g| && g[s].tag == CaptureOpen(id) && g[s].next == To(d)
    ensures n > 0 && i <= |t.runes| && run(n - 1, Config(d, i, SetSlot(c, 2 * id, t.offsets[i])))
  {
    var z := FirstStep(run, g, t, n, Config(s, i, c), y);
    assert z == Config(d, i, SetSlot(c, 2 * id, t.offsets[i]));
  }

  lemma CloseFirst(run: Finish, g: Graph, t: Subject, n: nat, s: nat, id: nat, d: nat, i: nat, c: Captures, y: Config)
    requires IsFinish(run, g, t, y) && run(n, Config(s, i, c)) && s < |g| && g[s].tag == CaptureClose(id) && g[s].next == To(d)
    ensures n > 0 && i <= |t.runes| && run(n - 1, Config(d, i, SetSlot(c, 2 * id + 1, t.offsets[i])))
  {
    var z := FirstStep(run, g, t, n, Config(s, i, c), y);
    assert z == Config(d, i, SetSlot(c, 2 * id + 1, t.offsets[i]));
  }

  lemma LeafRun(run: Finish, g: Graph, tag: Operand, lo: nat, out: nat, t: Subject, n: nat, i: nat, c: Captures, y: Config)
      returns (j: nat, d: Captures, m: nat)
    requires IsFinish(run, g, t, y) && Compiled(g, Leaf(tag), lo, To(out))
    requires run(n, Config(lo, i, c))
    ensures Captured(Leaf(tag), t, i, c, j, d)
    ensures m < n && run(m, Config(out, j, d))
  {
    var z := FirstStep(run, g, t, n, Config(lo, i, c), y);
    j, d, m := z.at, z.caps, n - 1;
  }

  lemma {:induction false} ConcatMatches(run: Finish, g: Graph, a: Regex, b: Regex, lo: nat, out: nat, t: Subject, n: nat, i: nat, c: Captures, y: Config)
      returns (j: nat, d: Captures, m: nat)
    requires IsFinish(run, g, t, y) && Compiled(g, Concat(a, b), lo, To(out))
    requires run(n, Config(Entry(a, lo), i, c))
    ensures Captured(Concat(a, b), t, i, c, j, d)
    ensures m < n && run(m, Config(out, j, d))
    decreases n, Concat(a, b), 0
  {
    var k, e, n1 := RunMatches(run, g, a, lo, Entry(b, lo + Size(a)), t, n, i, c, y);
    j, d, m := RunMatches(run, g, b, lo + Size(a), out, t, n1, k, e, y);
  }

  lemma {:induction false} EitherMatches(run: Finish, g: Graph, a: Regex, b: Regex, lo: nat, out: nat, t: Subject, n: nat, i: nat, c: Captures, y: Config)
      returns (j: nat, d: Captures, m: nat)
    requires IsFinish(run, g, t, y) && EitherShape(g, a, b, lo, To(out))
    requires run(n, Config(lo + Size(a) + Size(b), i, c))
    ensures Captured(a, t, i, c, j, d) || Captured(b, t, i, c, j, d)
    ensures m < n && run(m, Config(out, j, d))
    decreases n, Either(a, b), 0
  {
    var toLeft := SplitFirst(run, g, t, n, lo + Size(a) + Size(b), Entry(a, lo), Entry(b, lo + Size(a)), i, c, y);
    if toLeft {
      j, d, m := RunMatches(run, g, a, lo, out, t, n - 1, i, c, y);
    } else {
      j, d, m := RunMatches(run, g, b, lo + Size(a), out, t, n - 1, i, c, y);
    }
  }

  lemma {:induction false} GroupMatches(run: Finish, g: Graph, id: nat, a: Regex, lo: nat, out: nat, t: Subject, n: nat, i: nat, c: Captures, y: Config)
      returns (j: nat, d: Captures, m: nat)
    requires IsFinish(run, g, t, y) && Compiled(g, Group(id, a), lo, To(out))
    requires run(n, Config(lo + Size(a) + 1, i, c))
    ensures Captured(Group(id, a), t, i, c, j, d)
    ensures m < n && run(m, Config(out, j, d))
    decreases n, Group(id, a), 0
  {
    OpenFirst(run, g, t, n, lo + Size(a) + 1, id, Entry(a, lo), i, c, y);
    var e, n1;
    j, e, n1 := RunMatches(run, g, a, lo, lo + Size(a), t, n - 1, i, SetSlot(c, 2 * id, t.offsets[i]), y);
    CloseFirst(run, g, t, n1, lo + Size(a), id, out, j, e, y);
    d, m := SetSlot(e, 2 * id + 1, t.offsets[j]), n1 - 1;
    assert Captured(a, t, i, SetSlot(c, 2 * id, t.offsets[i]), j, e) && d == SetSlot(e, 2 * id + 1, t.offsets[j]);
  }

  lemma {:induction false} RepeatMatches(run: Finish, g: Graph, kind: RepeatKind, lazy: bool, a: Regex, lo: nat, out: nat, t: Subject,
                                         n: nat, i: nat, c: Captures, y: Config)
      returns (j: nat, d: Captures, m: nat)
    requires IsFinish(run, g, t, y) && Compiled(g, Repeat(kind, lazy, a), lo, To(out))
    requires run(n, Config(Entry(Repeat(kind, lazy, a), lo), i, c))
    ensures Captured(Repeat(kind, lazy, a), t, i, c, j, d)
    ensures m < n && run(m, Config(out, j, d))
    decreases n, Repeat(kind, lazy, a), 1
  {
    var k: nat;
    match kind
    case ZeroOrOne =>
      j, d, m := OptionMatches(run, g, lazy, a, lo, out, t, n, i, c, y);
    case ZeroOrMore =>
      j, d, m, k := LoopMatches(run, g, kind, lazy, a, lo, out, t, n, i, c, y);
    case OneOrMore =>
      var p, e, n1 := RunMatches(run, g, a, lo, lo + Size(a), t, n, i, c, y);
      j, d, m, k := LoopMatches(run, g, kind, lazy, a, lo, out, t, n1, p, e, y);
      assert CapturedPower(a, k + 1, t, i, c, j, d);
  }

  lemma {:induction false} OptionMatches(run: Finish, g: Graph, lazy: bool, a: Regex, lo: nat, out: nat, t: Subject, n: nat, i: nat, c: Captures, y: Config)
      returns (j: nat, d: Captures, m: nat)
    requires IsFinish(run, g, t, y) && Compiled(g, Repeat(ZeroOrOne, lazy, a), lo, To(out))
    requires run(n, Config(lo + Size(a), i, c))
    ensures Captured(Repeat(ZeroOrOne, lazy, a), t, i, c, j, d)
    ensures m < n && run(m, Config(out, j, d))
    decreases n, Repeat(ZeroOrOne, lazy, a), 0
  {
    var inward := SplitFirst(run, g, t, n, lo + Size(a), Entry(a, lo), out, i, c, y);
    if inward {
      j, d, m := RunMatches(run, g, a, lo, out, t, n - 1, i, c, y);
    } else {
      j, d, m := i, c, n - 1;
    }
  }

  lemma {:induction false} LoopMatches(run: Finish, g: Graph, kind: RepeatKind, lazy: bool, a: Regex, lo: nat, out: nat, t: Subject,
                                       n: nat, i: nat, c: Captures, y: Config)
      returns (j: nat, d: Captures, m: nat, k: nat)
    requires !kind.ZeroOrOne?
    requires IsFinish(run, g, t, y) && Compiled(g, Repeat(kind, lazy, a), lo, To(out))
    requires run(n, Config(lo + Size(a), i, c))
    ensures CapturedPower(a, k, t, i, c, j, d)
    ensures m < n && run(m, Config(out, j, d))
    decreases n, Repeat(kind, lazy, a), 0
  {
    var inward := SplitFirst(run, g, t, n, lo + Size(a), Entry(a, lo), out, i, c, y);
    if inward {
      var p, e, n1 := RunMatches(run, g, a, lo, lo + Size(a), t, n - 1, i, c, y);
      j, d, m, k := LoopMatches(run, g, kind, lazy, a, lo, out, t, n1, p, e, y);
      k := k + 1;
    } else {
      j, d, m, k := i, c, n - 1, 0;
    }
  }

  /** The same of runs themselves. */
  lemma AcceptingRunMatches(g: Graph, r: Regex, lo: nat, out: nat, t: Subject, n: nat, i: nat, c: Captures, y: Config)
      returns (j: nat, d: Captures, m: nat)
    requires t.Valid() && Compiled(g, r, lo, To(out))
    requires Run(g, t, n, Config(Entry(r, lo), i, c), y) && Accepting(g, y)
    ensures Captured(r, t, i, c, j, d)
    ensures m < n && Run(g, t, m, Config(out, j, d), y)
  {
    var run: Finish := (k: nat, x: Config) => Run(g, t, k, x, y);
    assert run(n, Config(Entry(r, lo), i, c));
    j, d, m := RunMatches(run, g, r, lo, out, t, n, i, c, y);
    assert run(m, Config(out, j, d));
  }
}
