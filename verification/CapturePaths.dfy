// Runs of the automaton as paths, and the order in which the matcher prefers
// them: at a split the first successor comes before the second one.

module CapturePaths {
  import opened Options
  import opened RegexSemantics
  import opened Nfa
  import opened Reachability

  /** The states passed so far, the current one outermost. */
  datatype Path = Start(state: nat) | Then(prev: Path, state: nat)

  /** The boundary a path has come to: the number of consuming states it has left. */
  function At(g: Graph, p: Path): nat
  {
    match p
    case Start(_) => 0
    case Then(q, _) => At(g, q) + if q.state < |g| && g[q.state].tag.IsTerminal() then 1 else 0
  }

  /** One move: an epsilon step, or a state that consumes the rune at boundary `i`. */
  ghost predicate Move(g: Graph, t: Subject, i: nat, x: nat, y: nat)
  {
    x < |g| && i <= |t.runes| &&
    if g[x].tag.IsTerminal() then
      i < |t.runes| && Accepts(t.classes, g[x].tag, t.runes[i]) && g[x].next == To(y)
    else
      EpsStep(g, FlagsAt(t, i), x, y)
  }

  ghost predicate IsPath(g: Graph, t: Subject, start: nat, p: Path)
    decreases p, |g|
  {
    match p
    case Start(s) => s == start
    case Then(q, s) => IsPath(g, t, start, q) && Move(g, t, At(g, q), q.state, s)
  }

  /** The captures recorded along a path. */
  ghost function Replay(g: Graph, t: Subject, unset: Captures, p: Path): (c: Captures)
    requires t.Valid()
    ensures |c| == |unset|
    decreases p, |g|
  {
    match p
    case Start(_) => unset
    case Then(q, _) =>
      var c := Replay(g, t, unset, q);
      if q.state < |g| && At(g, q) <= |t.runes| then Recorded(g[q.state].tag, c, t.offsets[At(g, q)]) else c
  }

  function Recorded(tag: Label, c: Captures, pos: nat): (d: Captures)
    ensures |d| == |c|
  {
    match tag
    case CaptureOpen(id) => SetSlot(c, 2 * id, pos)
    case CaptureClose(id) => SetSlot(c, 2 * id + 1, pos)
    case _ => c
  }

  // ---------------------------------------------------------------------
  // Paths and runs
  // ---------------------------------------------------------------------

  lemma {:induction false} RunSnoc(g: Graph, t: Subject, n: nat, x: Config, y: Config, z: Config)
    requires t.Valid() && Run(g, t, n, x, y) && Step(g, t, y, z)
    ensures Run(g, t, n + 1, x, z)
  {
    assert Run(g, t, 0, z, z);
    assert Run(g, t, 1, y, z);
    RunTrans(g, t, n, x, y, 1, z);
  }

  lemma MoveIsStep(g: Graph, t: Subject, i: nat, x: nat, y: nat, c: Captures)
    requires t.Valid() && Move(g, t, i, x, y)
    ensures Step(g, t, Config(x, i, c), Config(y, i + if g[x].tag.IsTerminal() then 1 else 0, Recorded(g[x].tag, c, t.offsets[i])))
  {
  }

  /** A path is a run that records its captures. */
  lemma {:induction false} PathReaches(g: Graph, t: Subject, start: nat, unset: Captures, p: Path)
    requires t.Valid() && IsPath(g, t, start, p)
    ensures Reaches(g, t, Config(start, 0, unset), Config(p.state, At(g, p), Replay(g, t, unset, p)))
    decreases p
  {
    var x := Config(start, 0, unset);
    match p
    case Start(_) => assert Run(g, t, 0, x, x);
    case Then(q, s) =>
      PathReaches(g, t, start, unset, q);
      var y := Config(q.state, At(g, q), Replay(g, t, unset, q));
      MoveIsStep(g, t, At(g, q), q.state, s, y.caps);
      var n: nat :| Run(g, t, n, x, y);
      RunSnoc(g, t, n, x, y, Config(s, At(g, p), Replay(g, t, unset, p)));
  }

  lemma StepIsMove(g: Graph, t: Subject, x: Config, y: Config)
    requires t.Valid() && Step(g, t, x, y)
    ensures Move(g, t, x.at, x.state, y.state) && y.at == x.at + if g[x.state].tag.IsTerminal() then 1 else 0
  {
  }

  /** A run continues a path. */
  lemma {:induction false} RunIsPath(g: Graph, t: Subject, start: nat, n: nat, p: Path, c: Captures, y: Config) returns (q: Path)
    requires t.Valid() && IsPath(g, t, start, p) && Run(g, t, n, Config(p.state, At(g, p), c), y)
    ensures IsPath(g, t, start, q) && q.state == y.state && At(g, q) == y.at
    decreases n
  {
    var x := Config(p.state, At(g, p), c);
    if n == 0 {
      q := p;
    } else {
      var z :| Step(g, t, x, z) && Run(g, t, n - 1, z, y);
      StepIsMove(g, t, x, z);
      q := RunIsPath(g, t, start, n - 1, Then(p, z.state), z.caps, y);
    }
  }

  // ---------------------------------------------------------------------
  // Prefixes
  // ---------------------------------------------------------------------

  /** `q` goes on from `p`. */
  ghost predicate Extends(p: Path, q: Path)
  {
    p == q || (q.Then? && Extends(p, q.prev))
  }

  lemma {:induction false} ExtendsTrans(p: Path, q: Path, r: Path)
    requires Extends(p, q) && Extends(q, r)
    ensures Extends(p, r)
    decreases r
  {
    if q != r {
      ExtendsTrans(p, q, r.prev);
    }
  }

  /** Two prefixes of a path are prefixes of each other. */
  lemma {:induction false} PrefixesComparable(p: Path, q: Path, r: Path)
    requires Extends(p, r) && Extends(q, r)
    ensures Extends(p, q) || Extends(q, p)
    decreases r
  {
    if p != r && q != r {
      PrefixesComparable(p, q, r.prev);
    }
  }

  // ---------------------------------------------------------------------
  // Preference
  // ---------------------------------------------------------------------

  /** At a split, `a` is tried before `b`. */
  predicate Prefers(g: Graph, s: nat, a: nat, b: nat)
  {
    s < |g| && g[s].tag == Split && g[s].next == To(a) && g[s].alt == To(b) && a != b
  }

  /** The paths part at `r`, where `p` takes the preferred successor. */
  ghost predicate PartsAt(g: Graph, p: Path, q: Path, r: Path, a: nat, b: nat)
  {
    Prefers(g, r.state, a, b) && Extends(Then(r, a), p) && Extends(Then(r, b), q)
  }

  ghost predicate Before(g: Graph, p: Path, q: Path)
  {
    exists r, a, b :: PartsAt(g, p, q, r, a, b)
  }

  ghost predicate NotAfter(g: Graph, p: Path, q: Path)
  {
    p == q || Before(g, p, q)
  }

  lemma BeforeExtends(g: Graph, p: Path, q: Path, p': Path, q': Path)
    requires Before(g, p, q) && Extends(p, p') && Extends(q, q')
    ensures Before(g, p', q')
  {
    var r, a, b :| PartsAt(g, p, q, r, a, b);
    ExtendsTrans(Then(r, a), p, p');
    ExtendsTrans(Then(r, b), q, q');
    assert PartsAt(g, p', q', r, a, b);
  }

  lemma BeforeTrans(g: Graph, p: Path, q: Path, r: Path)
    requires Before(g, p, q) && Before(g, q, r)
    ensures Before(g, p, r)
  {
    var u, a, b :| PartsAt(g, p, q, u, a, b);
    var v, c, d :| PartsAt(g, q, r, v, c, d);
    PrefixesComparable(Then(u, b), Then(v, c), q);
    if Extends(Then(u, b), Then(v, c)) {
      if Then(u, b) != Then(v, c) {
        assert Extends(Then(u, b), v) && Extends(v, Then(v, d));
        ExtendsTrans(Then(u, b), v, Then(v, d));
        ExtendsTrans(Then(u, b), Then(v, d), r);
        assert PartsAt(g, p, r, u, a, b);
      }
    } else {
      assert Extends(Then(v, c), u) && Extends(u, Then(u, a));
      ExtendsTrans(Then(v, c), u, Then(u, a));
      ExtendsTrans(Then(v, c), Then(u, a), p);
      assert PartsAt(g, p, r, v, c, d);
    }
  }

  lemma NotAfterTrans(g: Graph, p: Path, q: Path, r: Path)
    requires NotAfter(g, p, q) && NotAfter(g, q, r)
    ensures NotAfter(g, p, r)
  {
    if p != q && q != r {
      BeforeTrans(g, p, q, r);
    }
  }

  /** Going on in the same way keeps the order. */
  lemma NotAfterThen(g: Graph, p: Path, q: Path, s: nat)
    requires NotAfter(g, p, q)
    ensures NotAfter(g, Then(p, s), Then(q, s))
  {
    if p != q {
      BeforeExtends(g, p, q, Then(p, s), Then(q, s));
    }
  }

  // ---------------------------------------------------------------------
  // Simple paths
  // ---------------------------------------------------------------------

  /** The path passes state `s` at boundary `i`. */
  ghost predicate Visits(g: Graph, p: Path, s: nat, i: nat)
  {
    (p.state == s && At(g, p) == i) || (p.Then? && Visits(g, p.prev, s, i))
  }

  /** No state is passed twice between two runes. */
  ghost predicate Simple(g: Graph, p: Path)
    decreases p, |g|
  {
    p.Then? ==> Simple(g, p.prev) && !Visits(g, p.prev, p.state, At(g, p))
  }

  lemma {:induction false} PrefixVisits(g: Graph, p: Path, q: Path)
    requires Extends(p, q)
    ensures Visits(g, q, p.state, At(g, p)) && At(g, p) <= At(g, q)
    decreases q
  {
    if p != q {
      PrefixVisits(g, p, q.prev);
    }
  }

  lemma {:induction false} VisitsUpTo(g: Graph, p: Path, s: nat, i: nat)
    requires Visits(g, p, s, i)
    ensures i <= At(g, p)
    decreases p
  {
    if !(p.state == s && At(g, p) == i) {
      VisitsUpTo(g, p.prev, s, i);
    }
  }

  /** A simple path does not come back to a state of a proper prefix at the same boundary. */
  lemma SimpleMovesOn(g: Graph, p: Path, q: Path)
    requires Simple(g, q) && Extends(p, q) && p != q
    ensures !(p.state == q.state && At(g, p) == At(g, q))
  {
    PrefixVisits(g, p, q.prev);
  }

  /**
   * The preferred one of all simple paths that lead to state `s` at boundary
   * `i`: the run of an ideal backtracking matcher.
   */
  ghost predicate Preferred(g: Graph, t: Subject, start: nat, s: nat, i: nat, p: Path)
  {
    && IsPath(g, t, start, p) && Simple(g, p) && p.state == s && At(g, p) == i
    && forall q {:trigger NotAfter(g, p, q)} ::
         IsPath(g, t, start, q) && Simple(g, q) && q.state == s && At(g, q) == i ==> NotAfter(g, p, q)
  }

  lemma {:induction false} NotItsOwnPrefix(p: Path, s: nat)
    ensures !Extends(Then(p, s), p)
    decreases p
  {
    if p.Then? {
      if Extends(Then(p, s), p.prev) {
        ExtendsTrans(Then(p.prev, p.state), Then(p, s), p.prev);
        NotItsOwnPrefix(p.prev, p.state);
      }
    }
  }

  lemma NotBeforeItself(g: Graph, p: Path)
    ensures !Before(g, p, p)
  {
    forall r: Path, a: nat, b: nat
      ensures !PartsAt(g, p, p, r, a, b)
    {
      if a != b && Extends(Then(r, a), p) && Extends(Then(r, b), p) {
        PrefixesComparable(Then(r, a), Then(r, b), p);
        NotItsOwnPrefix(r, a);
        NotItsOwnPrefix(r, b);
      }
    }
  }

  /** There is at most one preferred path. */
  lemma PreferredUnique(g: Graph, t: Subject, start: nat, s: nat, i: nat, p: Path, q: Path)
    requires Preferred(g, t, start, s, i, p) && Preferred(g, t, start, s, i, q)
    ensures p == q
  {
    assert NotAfter(g, p, q) && NotAfter(g, q, p);
    if p != q {
      BeforeTrans(g, p, q, p);
      NotBeforeItself(g, p);
    }
  }
}
