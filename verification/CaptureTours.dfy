// One step of the matcher with captures as a depth-first tour of the states
// at a boundary, and why the tour meets every state on its preferred path
// although states that were met before are skipped.

module CaptureTours {
  import opened Options
  import opened RegexSemantics
  import opened Nfa
  import opened Reachability
  import opened CapturePaths

  /** The states met with the paths that led to them, the threads, and what is still to be visited, the next one last. */
  datatype Tour = Tour(visited: map<nat, Path>, threads: seq<Path>, agenda: seq<Option<Path>>)

  /** The automaton, the text, and the threads at the boundary before `i`; at boundary 0 there are none. */
  datatype Scene = Scene(g: Graph, t: Subject, start: nat, i: nat, prev: seq<Path>)
  {
    ghost predicate Valid()
    {
      && t.Valid() && InRange(g) && start < |g| && i <= |t.runes|
      && (i > 0 ==> Lineup(g, t, start, i - 1, prev, false))
    }

    /** All threads at the boundary before are there, in order. */
    ghost predicate Known()
    {
      i > 0 ==> Lineup(g, t, start, i - 1, prev, true)
    }

    ghost predicate Here(p: Path) { IsPath(g, t, start, p) && At(g, p) == i && p.state < |g| }

    /** The path has just come to the boundary. */
    ghost predicate Enters(p: Path) { p.Start? || At(g, p.prev) < i }

    /** Where the tour of this boundary begins. */
    ghost predicate IsRoot(p: Path)
    {
      if i == 0 then p == Start(start)
      else p.Then? && p.prev in prev && Move(g, t, i - 1, p.prev.state, p.state)
    }

    ghost predicate Eps(x: nat, y: nat)
      requires i <= |t.runes|
    {
      EpsStep(g, FlagsAt(t, i), x, y)
    }
  }

  /** The paths of the threads at a boundary; if `full`, they are the preferred ones to all terminal states there, in order. */
  ghost predicate Lineup(g: Graph, t: Subject, start: nat, i: nat, threads: seq<Path>, full: bool)
  {
    && (forall k :: 0 <= k < |threads| ==>
         IsPath(g, t, start, threads[k]) && At(g, threads[k]) == i && threads[k].state < |g| && g[threads[k].state].tag.IsTerminal())
    && (full ==> Sorted(g, threads) && Complete(g, t, start, i, threads))
  }

  ghost predicate Sorted(g: Graph, threads: seq<Path>)
  {
    forall a, b {:trigger Before(g, threads[a], threads[b])} :: 0 <= a < b < |threads| ==> Before(g, threads[a], threads[b])
  }

  ghost predicate Complete(g: Graph, t: Subject, start: nat, i: nat, threads: seq<Path>)
  {
    && (forall k :: 0 <= k < |threads| ==> Simple(g, threads[k]))
    && forall r {:trigger Served(g, threads, r)} ::
         IsPath(g, t, start, r) && At(g, r) == i && r.state < |g| && g[r.state].tag.IsTerminal() ==> Served(g, threads, r)
  }

  /** A thread stands for the state of the path, and if the path is simple, by a path not after it. */
  ghost predicate Served(g: Graph, threads: seq<Path>, r: Path)
  {
    exists k :: 0 <= k < |threads| && threads[k].state == r.state && (Simple(g, r) ==> NotAfter(g, threads[k], r))
  }

  // ---------------------------------------------------------------------
  // Invariants of a tour
  // ---------------------------------------------------------------------

  /** What holds even after a move was cut for lack of frames. */
  ghost predicate Sound(sc: Scene, tour: Tour)
  {
    && (forall x :: x in tour.visited ==> sc.Here(tour.visited[x]) && tour.visited[x].state == x)
    && (forall k :: 0 <= k < |tour.threads| ==>
         var p := tour.threads[k];
         p.state in tour.visited && tour.visited[p.state] == p && p.state < |sc.g| && sc.g[p.state].tag.IsTerminal())
    && (forall k :: 0 <= k < |tour.agenda| && tour.agenda[k].Some? ==> sc.Here(tour.agenda[k].value))
  }

  ghost predicate Unvisited(tour: Tour, q: Option<Path>) { q.Some? && q.value.state !in tour.visited }

  /** The path before a waiting state is simple, and all it passes at this boundary has been met. */
  ghost predicate Founded(sc: Scene, tour: Tour, q: Path)
  {
    q.Then? ==> Simple(sc.g, q.prev) && forall s :: Visits(sc.g, q.prev, s, sc.i) ==> s in tour.visited
  }

  /** What waits later in the agenda is preferred. */
  ghost predicate InOrder(sc: Scene, tour: Tour)
  {
    && (forall a, b :: 0 <= a < b < |tour.agenda| && Unvisited(tour, tour.agenda[a]) && Unvisited(tour, tour.agenda[b]) ==>
         NotAfter(sc.g, tour.agenda[b].value, tour.agenda[a].value))
    && (forall k, b :: 0 <= k < |tour.threads| && 0 <= b < |tour.agenda| && Unvisited(tour, tour.agenda[b]) ==>
         Before(sc.g, tour.threads[k], tour.agenda[b].value))
    && Sorted(sc.g, tour.threads)
  }

  /** No move out of a state that was met, and no root, has been forgotten. */
  ghost predicate Pursued(sc: Scene, tour: Tour)
    requires sc.Valid()
  {
    && (forall x, z {:trigger sc.Eps(x, z)} :: x in tour.visited && sc.Eps(x, z) && z !in tour.visited ==> Some(Then(tour.visited[x], z)) in tour.agenda)
    && (forall p {:trigger sc.IsRoot(p)} :: sc.IsRoot(p) && p.state !in tour.visited ==> Some(p) in tour.agenda)
    && (forall x :: x in tour.visited && x < |sc.g| && sc.g[x].tag.IsTerminal() ==> tour.visited[x] in tour.threads)
  }

  /** Every state was met on its preferred path. */
  ghost predicate Best(sc: Scene, tour: Tour)
  {
    forall x :: x in tour.visited ==> Preferred(sc.g, sc.t, sc.start, x, sc.i, tour.visited[x])
  }

  ghost predicate Full(sc: Scene, tour: Tour)
    requires sc.Valid()
  {
    && sc.Known() && InOrder(sc, tour) && Pursued(sc, tour) && Best(sc, tour)
    && forall k :: 0 <= k < |tour.agenda| && tour.agenda[k].Some? ==> Founded(sc, tour, tour.agenda[k].value)
  }

  // ---------------------------------------------------------------------
  // What is unvisited is still to come
  // ---------------------------------------------------------------------

  /** A path that enters the boundary is matched by a root that is not after it. */
  lemma EnteringRoot(sc: Scene, r: Path) returns (p: Path)
    requires sc.Valid() && sc.Known() && sc.Here(r) && sc.Enters(r)
    ensures sc.IsRoot(p) && p.state == r.state && (Simple(sc.g, r) ==> NotAfter(sc.g, p, r))
  {
    if r.Start? {
      p := r;
    } else {
      assert At(sc.g, r.prev) == sc.i - 1;
      assert Served(sc.g, sc.prev, r.prev);
      var k :| 0 <= k < |sc.prev| && sc.prev[k].state == r.prev.state && (Simple(sc.g, r.prev) ==> NotAfter(sc.g, sc.prev[k], r.prev));
      p := Then(sc.prev[k], r.state);
      if Simple(sc.g, r) {
        NotAfterThen(sc.g, sc.prev[k], r.prev, r.state);
      }
    }
  }

  lemma EpsWithin(sc: Scene, r: Path)
    requires sc.Valid() && sc.Here(r) && !sc.Enters(r)
    ensures sc.Here(r.prev) && sc.Eps(r.prev.state, r.state)
  {
  }

  /** Every simple path to an unvisited state goes on from a waiting one, or from what is preferred to it. */
  lemma {:induction false} StillToCome(sc: Scene, tour: Tour, r: Path) returns (q: Path, r': Path)
    requires sc.Valid() && Sound(sc, tour) && Full(sc, tour)
    requires sc.Here(r) && Simple(sc.g, r) && r.state !in tour.visited
    ensures Some(q) in tour.agenda && q.state !in tour.visited
    ensures Extends(r', r) && At(sc.g, r') == sc.i && r'.state == q.state && NotAfter(sc.g, q, r')
    decreases r
  {
    if sc.Enters(r) {
      q := EnteringRoot(sc, r);
      r' := r;
    } else {
      EpsWithin(sc, r);
      var x := r.prev.state;
      if x in tour.visited {
        assert Preferred(sc.g, sc.t, sc.start, x, sc.i, tour.visited[x]);
        NotAfterThen(sc.g, tour.visited[x], r.prev, r.state);
        q, r' := Then(tour.visited[x], r.state), r;
      } else {
        q, r' := StillToCome(sc, tour, r.prev);
      }
    }
  }

  /** With an empty agenda every state that a path reaches at the boundary has been met. */
  lemma {:induction false} AllMet(sc: Scene, tour: Tour, r: Path)
    requires sc.Valid() && sc.Known() && Pursued(sc, tour) && tour.agenda == [] && sc.Here(r)
    ensures r.state in tour.visited
    decreases r
  {
    if sc.Enters(r) {
      var p := EnteringRoot(sc, r);
      assert p.state == r.state;
    } else {
      EpsWithin(sc, r);
      AllMet(sc, tour, r.prev);
    }
  }

  /** A finished tour leaves the threads of the boundary. */
  lemma {:induction false} TourDone(sc: Scene, tour: Tour, full: bool)
    requires sc.Valid() && Sound(sc, tour) && tour.agenda == [] && (full ==> Full(sc, tour))
    ensures Lineup(sc.g, sc.t, sc.start, sc.i, tour.threads, full)
  {
    if full {
      forall r | IsPath(sc.g, sc.t, sc.start, r) && At(sc.g, r) == sc.i && r.state < |sc.g| && sc.g[r.state].tag.IsTerminal()
        ensures Served(sc.g, tour.threads, r)
      {
        AllMet(sc, tour, r);
        var p := tour.visited[r.state];
        assert p in tour.threads;
        var k :| 0 <= k < |tour.threads| && tour.threads[k] == p;
      }
    }
  }

  // ---------------------------------------------------------------------
  // Moves of a tour
  // ---------------------------------------------------------------------

  ghost function Top(tour: Tour): Option<Path>
    requires tour.agenda != []
  {
    tour.agenda[|tour.agenda| - 1]
  }

  /** A null pointer or a state met before is passed over. */
  ghost function Dropped(tour: Tour): Tour
    requires tour.agenda != []
  {
    tour.(agenda := tour.agenda[..|tour.agenda| - 1])
  }

  lemma {:induction false} DropKeeps(sc: Scene, tour: Tour)
    requires sc.Valid() && Sound(sc, tour) && tour.agenda != [] && !Unvisited(tour, Top(tour))
    ensures Sound(sc, Dropped(tour)) && (Full(sc, tour) ==> Full(sc, Dropped(tour)))
  {
    var rest := Dropped(tour);
    assert tour.agenda == rest.agenda + [Top(tour)];
    if Full(sc, tour) {
      forall q | q in tour.agenda && Unvisited(tour, q)
        ensures q in rest.agenda
      {
      }
      assert Pursued(sc, rest);
    }
  }

  /** A new state is met; `pushed` are the moves out of it. */
  ghost function Met(g: Graph, tour: Tour, pushed: seq<Option<Path>>): Tour
    requires tour.agenda != [] && Top(tour).Some?
  {
    var p := Top(tour).value;
    Tour(tour.visited[p.state := p],
         if p.state < |g| && g[p.state].tag.IsTerminal() then tour.threads + [p] else tour.threads,
         tour.agenda[..|tour.agenda| - 1] + pushed)
  }

  /** The pushed entries are moves out of the state on top. */
  ghost predicate Moves(sc: Scene, p: Path, pushed: seq<Option<Path>>)
    requires sc.Valid()
  {
    forall k :: 0 <= k < |pushed| && pushed[k].Some? ==>
      pushed[k].value.Then? && pushed[k].value.prev == p && sc.Eps(p.state, pushed[k].value.state)
  }

  /** They are all moves, the preferred one last. */
  ghost predicate AllMoves(sc: Scene, p: Path, pushed: seq<Option<Path>>)
    requires sc.Valid()
  {
    && (forall z :: sc.Eps(p.state, z) ==> Some(Then(p, z)) in pushed)
    && Descending(sc.g, pushed)
  }

  /** What stands later is preferred. */
  ghost predicate Descending(g: Graph, agenda: seq<Option<Path>>)
  {
    forall a, b :: 0 <= a < b < |agenda| && agenda[a].Some? && agenda[b].Some? ==> NotAfter(g, agenda[b].value, agenda[a].value)
  }

  lemma EpsHere(sc: Scene, p: Path, z: nat)
    requires sc.Valid() && sc.Here(p) && sc.Eps(p.state, z)
    ensures sc.Here(Then(p, z)) && !sc.g[p.state].tag.IsTerminal()
  {
  }

  lemma {:induction false} MeetSound(sc: Scene, tour: Tour, pushed: seq<Option<Path>>)
    requires sc.Valid() && Sound(sc, tour) && tour.agenda != [] && Unvisited(tour, Top(tour))
    requires Moves(sc, Top(tour).value, pushed)
    ensures Sound(sc, Met(sc.g, tour, pushed))
  {
    var p, n := Top(tour).value, |tour.agenda| - 1;
    var after := Met(sc.g, tour, pushed);
    forall k | 0 <= k < |after.agenda| && after.agenda[k].Some?
      ensures sc.Here(after.agenda[k].value)
    {
      if k < n {
        assert after.agenda[k] == tour.agenda[k];
      } else {
        assert after.agenda[k] == pushed[k - n];
        EpsHere(sc, p, after.agenda[k].value.state);
      }
    }
  }

  lemma TopNotAfter(sc: Scene, tour: Tour, r: Path)
    requires sc.Valid() && Sound(sc, tour) && Full(sc, tour) && tour.agenda != [] && Unvisited(tour, Top(tour))
    requires sc.Here(r) && Simple(sc.g, r) && r.state == Top(tour).value.state
    ensures NotAfter(sc.g, Top(tour).value, r)
  {
    var q, r' := StillToCome(sc, tour, r);
    TopFirst(sc, tour, q);
    FirstAmong(sc, Top(tour).value, q, r', r);
  }

  lemma TopFirst(sc: Scene, tour: Tour, q: Path)
    requires InOrder(sc, tour) && tour.agenda != [] && Unvisited(tour, Top(tour))
    requires Some(q) in tour.agenda && q.state !in tour.visited
    ensures NotAfter(sc.g, Top(tour).value, q)
  {
    var k :| 0 <= k < |tour.agenda| && tour.agenda[k] == Some(q);
    assert Unvisited(tour, tour.agenda[k]);
  }

  lemma TopSimple(sc: Scene, tour: Tour)
    requires sc.Valid() && Sound(sc, tour) && Full(sc, tour) && tour.agenda != [] && Unvisited(tour, Top(tour))
    ensures Simple(sc.g, Top(tour).value)
  {
    assert Founded(sc, tour, Top(tour).value);
  }

  /** The state on top is met on its preferred path. */
  lemma TopPreferred(sc: Scene, tour: Tour)
    requires sc.Valid() && Sound(sc, tour) && Full(sc, tour) && tour.agenda != [] && Unvisited(tour, Top(tour))
    ensures Preferred(sc.g, sc.t, sc.start, Top(tour).value.state, sc.i, Top(tour).value)
  {
    TopSimple(sc, tour);
    forall r | IsPath(sc.g, sc.t, sc.start, r) && Simple(sc.g, r) && r.state == Top(tour).value.state && At(sc.g, r) == sc.i
      ensures NotAfter(sc.g, Top(tour).value, r)
    {
      TopNotAfter(sc, tour, r);
    }
  }

  lemma FirstAmong(sc: Scene, p: Path, q: Path, r': Path, r: Path)
    requires NotAfter(sc.g, p, q) && NotAfter(sc.g, q, r') && Extends(r', r) && Simple(sc.g, r)
    requires p.state == r.state && q.state == r'.state && At(sc.g, r') == At(sc.g, r)
    ensures NotAfter(sc.g, p, r)
  {
    NotAfterTrans(sc.g, p, q, r');
    if r' != r {
      SimpleMovesOn(sc.g, r', r);
      assert p != r';
      assert Extends(p, p);
      BeforeExtends(sc.g, p, r', p, r);
    }
  }

  /** What waited before comes after the path on top and after the threads. */
  lemma OldWaitsAfter(sc: Scene, tour: Tour, b: nat)
    requires sc.Valid() && InOrder(sc, tour) && tour.agenda != [] && Unvisited(tour, Top(tour))
    requires b < |tour.agenda| - 1 && Unvisited(tour, tour.agenda[b]) && tour.agenda[b].value.state != Top(tour).value.state
    ensures Before(sc.g, Top(tour).value, tour.agenda[b].value)
    ensures forall k :: 0 <= k < |tour.threads| ==> Before(sc.g, tour.threads[k], tour.agenda[b].value)
  {
    var n := |tour.agenda| - 1;
    assert NotAfter(sc.g, tour.agenda[n].value, tour.agenda[b].value);
  }

  /** So does what is pushed now, which goes on from the path on top. */
  lemma NewWaitsAfter(sc: Scene, tour: Tour, q: Path)
    requires sc.Valid() && InOrder(sc, tour) && tour.agenda != [] && Unvisited(tour, Top(tour))
    requires q.Then? && q.prev == Top(tour).value
    ensures Extends(Top(tour).value, q)
    ensures forall k :: 0 <= k < |tour.threads| ==> Before(sc.g, tour.threads[k], q)
  {
    var p, n := Top(tour).value, |tour.agenda| - 1;
    assert Extends(p, q.prev);
    forall k | 0 <= k < |tour.threads|
      ensures Before(sc.g, tour.threads[k], q)
    {
      assert Before(sc.g, tour.threads[k], tour.agenda[n].value);
      assert Extends(tour.threads[k], tour.threads[k]);
      BeforeExtends(sc.g, tour.threads[k], p, tour.threads[k], q);
    }
  }

  lemma {:induction false} MeetInOrder(sc: Scene, tour: Tour, pushed: seq<Option<Path>>)
    requires sc.Valid() && Sound(sc, tour) && Full(sc, tour) && tour.agenda != [] && Unvisited(tour, Top(tour))
    requires Moves(sc, Top(tour).value, pushed) && AllMoves(sc, Top(tour).value, pushed)
    ensures InOrder(sc, Met(sc.g, tour, pushed))
  {
    var p, n := Top(tour).value, |tour.agenda| - 1;
    var after := Met(sc.g, tour, pushed);
    var rest := tour.agenda[..n];
    forall b | 0 <= b < n && Unvisited(after, rest[b])
      ensures Before(sc.g, p, rest[b].value)
      ensures forall k :: 0 <= k < |tour.threads| ==> Before(sc.g, tour.threads[k], rest[b].value)
    {
      OldWaitsAfter(sc, tour, b);
    }
    forall b | 0 <= b < |pushed| && pushed[b].Some?
      ensures Extends(p, pushed[b].value) && !sc.g[p.state].tag.IsTerminal()
      ensures forall k :: 0 <= k < |tour.threads| ==> Before(sc.g, tour.threads[k], pushed[b].value)
    {
      NewWaitsAfter(sc, tour, pushed[b].value);
      EpsHere(sc, p, pushed[b].value.state);
    }
    forall a, b | 0 <= a < n && 0 <= b < |pushed| && Unvisited(after, rest[a]) && pushed[b].Some?
      ensures NotAfter(sc.g, pushed[b].value, rest[a].value)
    {
      assert Extends(rest[a].value, rest[a].value);
      BeforeExtends(sc.g, p, rest[a].value, pushed[b].value, rest[a].value);
    }
    AgendaSorted(sc.g, after, rest, pushed);
    ThreadsFirst(sc, tour, after, rest, pushed);
  }

  lemma AgendaSorted(g: Graph, after: Tour, rest: seq<Option<Path>>, pushed: seq<Option<Path>>)
    requires after.agenda == rest + pushed
    requires forall a, b :: 0 <= a < b < |rest| && Unvisited(after, rest[a]) && Unvisited(after, rest[b]) ==> NotAfter(g, rest[b].value, rest[a].value)
    requires forall a, b :: 0 <= a < b < |pushed| && pushed[a].Some? && pushed[b].Some? ==> NotAfter(g, pushed[b].value, pushed[a].value)
    requires forall a, b :: 0 <= a < |rest| && 0 <= b < |pushed| && Unvisited(after, rest[a]) && pushed[b].Some? ==>
               NotAfter(g, pushed[b].value, rest[a].value)
    ensures forall a, b :: 0 <= a < b < |after.agenda| && Unvisited(after, after.agenda[a]) && Unvisited(after, after.agenda[b]) ==>
              NotAfter(g, after.agenda[b].value, after.agenda[a].value)
  {
    forall a, b | 0 <= a < b < |after.agenda| && Unvisited(after, after.agenda[a]) && Unvisited(after, after.agenda[b])
      ensures NotAfter(g, after.agenda[b].value, after.agenda[a].value)
    {
      var n := |rest|;
      if b < n {
        assert after.agenda[a] == rest[a] && after.agenda[b] == rest[b];
      } else if a < n {
        assert after.agenda[a] == rest[a] && after.agenda[b] == pushed[b - n];
      } else {
        assert after.agenda[a] == pushed[a - n] && after.agenda[b] == pushed[b - n];
      }
    }
  }

  /** The threads, with the state on top if it is terminal, come before everything that waits. */
  lemma ThreadsFirst(sc: Scene, tour: Tour, after: Tour, rest: seq<Option<Path>>, pushed: seq<Option<Path>>)
    requires sc.Valid() && InOrder(sc, tour) && tour.agenda != [] && Unvisited(tour, Top(tour)) && after == Met(sc.g, tour, pushed)
    requires rest == tour.agenda[..|tour.agenda| - 1]
    requires var p := Top(tour).value;
             && (forall b :: 0 <= b < |rest| && Unvisited(after, rest[b]) ==>
                  Before(sc.g, p, rest[b].value) && forall k :: 0 <= k < |tour.threads| ==> Before(sc.g, tour.threads[k], rest[b].value))
             && (forall b :: 0 <= b < |pushed| && pushed[b].Some? ==>
                  p.state < |sc.g| && !sc.g[p.state].tag.IsTerminal() &&
                  forall k :: 0 <= k < |tour.threads| ==> Before(sc.g, tour.threads[k], pushed[b].value))
    ensures forall k, b :: 0 <= k < |after.threads| && 0 <= b < |after.agenda| && Unvisited(after, after.agenda[b]) ==>
              Before(sc.g, after.threads[k], after.agenda[b].value)
    ensures Sorted(sc.g, after.threads)
  {
    var n := |rest|;
    forall k, b | 0 <= k < |after.threads| && 0 <= b < |after.agenda| && Unvisited(after, after.agenda[b])
      ensures Before(sc.g, after.threads[k], after.agenda[b].value)
    {
      if b < n {
        assert after.agenda[b] == rest[b];
      } else {
        assert after.agenda[b] == pushed[b - n];
      }
    }
  }

  lemma {:induction false} MeetPursued(sc: Scene, tour: Tour, pushed: seq<Option<Path>>)
    requires sc.Valid() && Sound(sc, tour) && Full(sc, tour) && tour.agenda != [] && Unvisited(tour, Top(tour))
    requires AllMoves(sc, Top(tour).value, pushed)
    ensures Pursued(sc, Met(sc.g, tour, pushed))
  {
    var p, n := Top(tour).value, |tour.agenda| - 1;
    var after := Met(sc.g, tour, pushed);
    assert tour.agenda == tour.agenda[..n] + [Some(p)];
    forall q | q in tour.agenda && Unvisited(after, q)
      ensures q in after.agenda
    {
    }
    forall x | x in after.visited && x < |sc.g| && sc.g[x].tag.IsTerminal()
      ensures after.visited[x] in after.threads
    {
      if x != p.state {
        assert tour.visited[x] in tour.threads;
      }
    }
  }

  lemma {:induction false} MeetFounded(sc: Scene, tour: Tour, pushed: seq<Option<Path>>)
    requires sc.Valid() && Sound(sc, tour) && Full(sc, tour) && tour.agenda != [] && Unvisited(tour, Top(tour))
    requires Moves(sc, Top(tour).value, pushed)
    ensures var after := Met(sc.g, tour, pushed);
            forall k :: 0 <= k < |after.agenda| && after.agenda[k].Some? ==> Founded(sc, after, after.agenda[k].value)
  {
    var p, n := Top(tour).value, |tour.agenda| - 1;
    var after := Met(sc.g, tour, pushed);
    TopPreferred(sc, tour);
    assert Founded(sc, tour, p);
    forall k | 0 <= k < |after.agenda| && after.agenda[k].Some?
      ensures Founded(sc, after, after.agenda[k].value)
    {
      if k < n {
        assert after.agenda[k] == tour.agenda[k];
        assert Founded(sc, tour, tour.agenda[k].value);
      } else {
        assert after.agenda[k] == pushed[k - n];
      }
    }
  }

  /** Meeting a state and pushing all moves out of it keeps the tour full. */
  lemma {:induction false} MeetFull(sc: Scene, tour: Tour, pushed: seq<Option<Path>>)
    requires sc.Valid() && Sound(sc, tour) && Full(sc, tour) && tour.agenda != [] && Unvisited(tour, Top(tour))
    requires Moves(sc, Top(tour).value, pushed) && AllMoves(sc, Top(tour).value, pushed)
    ensures Full(sc, Met(sc.g, tour, pushed))
  {
    TopPreferred(sc, tour);
    MeetInOrder(sc, tour, pushed);
    MeetPursued(sc, tour, pushed);
    MeetFounded(sc, tour, pushed);
  }

  // ---------------------------------------------------------------------
  // Where a tour begins
  // ---------------------------------------------------------------------

  /** The thread consumes the rune before the boundary. */
  ghost predicate Consumes(sc: Scene, p: Path)
    requires sc.Valid() && sc.i > 0
  {
    p.state < |sc.g| && Accepts(sc.t.classes, sc.g[p.state].tag, sc.t.runes[sc.i - 1]) && sc.g[p.state].next.To?
  }

  /** The roots of the threads from `k` on, the first one last. */
  ghost function Waiting(sc: Scene, k: nat): seq<Option<Path>>
    requires sc.Valid() && sc.i > 0 && k <= |sc.prev|
    decreases |sc.prev| - k
  {
    if k == |sc.prev| then []
    else
      Waiting(sc, k + 1) +
      if Consumes(sc, sc.prev[k]) then [Some(Then(sc.prev[k], sc.g[sc.prev[k].state].next.id))] else []
  }

  ghost function Opening(sc: Scene): Tour
    requires sc.Valid()
  {
    Tour(map[], [], if sc.i == 0 then [Some(Start(sc.start))] else Waiting(sc, 0))
  }

  /** What waits are roots of the threads from `k` on; all of them wait. */
  ghost predicate WaitsRight(sc: Scene, k: nat, agenda: seq<Option<Path>>)
    requires sc.Valid() && sc.i > 0 && k <= |sc.prev|
  {
    && (forall a :: 0 <= a < |agenda| ==> agenda[a].Some? && sc.IsRoot(agenda[a].value) && agenda[a].value.prev in sc.prev[k..])
    && forall p :: sc.IsRoot(p) && p.prev in sc.prev[k..] ==> Some(p) in agenda
  }

  lemma {:induction false} WaitingRight(sc: Scene, k: nat)
    requires sc.Valid() && sc.i > 0 && k <= |sc.prev|
    ensures WaitsRight(sc, k, Waiting(sc, k))
    decreases |sc.prev| - k
  {
    if k < |sc.prev| {
      WaitingRight(sc, k + 1);
      var q := sc.prev[k];
      assert sc.prev[k..] == [q] + sc.prev[k + 1..];
      var agenda := Waiting(sc, k);
      forall p | sc.IsRoot(p) && p.prev in sc.prev[k..]
        ensures Some(p) in agenda
      {
        if p.prev == q {
          assert Consumes(sc, q) && p == Then(q, sc.g[q.state].next.id);
          assert agenda[|agenda| - 1] == Some(p);
        } else {
          assert Some(p) in Waiting(sc, k + 1);
        }
      }
    }
  }

  lemma DescendingSnoc(g: Graph, rest: seq<Option<Path>>, p: Path)
    requires Descending(g, rest) && forall a :: 0 <= a < |rest| && rest[a].Some? ==> NotAfter(g, p, rest[a].value)
    ensures Descending(g, rest + [Some(p)])
  {
  }

  lemma {:induction false} WaitingSorted(sc: Scene, k: nat)
    requires sc.Valid() && sc.Known() && sc.i > 0 && k <= |sc.prev|
    ensures Descending(sc.g, Waiting(sc, k))
    ensures WaitsRight(sc, k, Waiting(sc, k))
    decreases |sc.prev| - k
  {
    WaitingRight(sc, k);
    if k < |sc.prev| {
      WaitingSorted(sc, k + 1);
      WaitingRight(sc, k + 1);
      var rest := Waiting(sc, k + 1);
      if Consumes(sc, sc.prev[k]) {
        var p := Then(sc.prev[k], sc.g[sc.prev[k].state].next.id);
        forall a | 0 <= a < |rest|
          ensures NotAfter(sc.g, p, rest[a].value)
        {
          RootsSorted(sc, k, p, rest[a].value);
        }
        DescendingSnoc(sc.g, rest, p);
      } else {
        assert Waiting(sc, k) == rest;
      }
    }
  }

  lemma RootsSorted(sc: Scene, k: nat, p: Path, q: Path)
    requires sc.Valid() && sc.Known() && sc.i > 0 && k < |sc.prev|
    requires p.Then? && p.prev == sc.prev[k] && q.Then? && q.prev in sc.prev[k + 1..]
    ensures Before(sc.g, p, q)
  {
    var m :| 0 <= m < |sc.prev[k + 1..]| && sc.prev[k + 1..][m] == q.prev;
    assert sc.prev[k + 1 + m] == q.prev && Before(sc.g, sc.prev[k], sc.prev[k + 1 + m]);
    assert Extends(p.prev, p.prev) && Extends(p.prev, p) && Extends(q.prev, q.prev) && Extends(q.prev, q);
    BeforeExtends(sc.g, p.prev, q.prev, p, q);
  }

  lemma {:induction false} RootHere(sc: Scene, p: Path)
    requires sc.Valid() && sc.IsRoot(p)
    ensures sc.Here(p)
    ensures sc.Known() ==> (p.Then? ==> Simple(sc.g, p.prev) && forall s :: !Visits(sc.g, p.prev, s, sc.i))
  {
    if sc.i > 0 {
      var k :| 0 <= k < |sc.prev| && sc.prev[k] == p.prev;
      forall s
        ensures !Visits(sc.g, p.prev, s, sc.i)
      {
        if Visits(sc.g, p.prev, s, sc.i) {
          VisitsUpTo(sc.g, p.prev, s, sc.i);
        }
      }
    }
  }

  lemma {:induction false} OpeningSound(sc: Scene)
    requires sc.Valid()
    ensures Sound(sc, Opening(sc)) && (sc.Known() ==> Full(sc, Opening(sc)))
  {
    var tour := Opening(sc);
    if sc.i > 0 {
      WaitingRight(sc, 0);
      assert sc.prev[0..] == sc.prev;
      if sc.Known() {
        WaitingSorted(sc, 0);
      }
    }
    forall k | 0 <= k < |tour.agenda| && tour.agenda[k].Some?
      ensures sc.Here(tour.agenda[k].value)
      ensures sc.Known() ==> Founded(sc, tour, tour.agenda[k].value)
    {
      assert sc.IsRoot(tour.agenda[k].value);
      RootHere(sc, tour.agenda[k].value);
    }
    if sc.Known() {
      forall p | sc.IsRoot(p)
        ensures Some(p) in tour.agenda
      {
      }
    }
  }

  // ---------------------------------------------------------------------
  // How many states a matcher clones a frame for
  // ---------------------------------------------------------------------

  predicate Clones(g: Graph, x: nat)
  {
    x < |g| && (g[x].tag.CaptureOpen? || g[x].tag.CaptureClose?)
  }

  /** The capture states that some path reaches at boundary `i`. */
  ghost function ClonedAt(g: Graph, t: Subject, start: nat, i: nat): set<nat>
  {
    set x | 0 <= x < |g| && Clones(g, x) && exists p :: IsPath(g, t, start, p) && At(g, p) == i && p.state == x
  }

  /** The frames in use after `n` boundaries: the first one and one per capture state reached. */
  ghost function FramesAfter(g: Graph, t: Subject, start: nat, n: nat): nat
    decreases n, |g|
  {
    if n == 0 then 1 else FramesAfter(g, t, start, n - 1) + |ClonedAt(g, t, start, n - 1)|
  }

  ghost function MetClones(g: Graph, visited: set<nat>): set<nat>
  {
    set x | x in visited && Clones(g, x)
  }

  lemma MetClonesReached(sc: Scene, tour: Tour)
    requires sc.Valid() && Sound(sc, tour)
    ensures MetClones(sc.g, tour.visited.Keys) <= ClonedAt(sc.g, sc.t, sc.start, sc.i)
  {
    forall x | x in MetClones(sc.g, tour.visited.Keys)
      ensures x in ClonedAt(sc.g, sc.t, sc.start, sc.i)
    {
      assert sc.Here(tour.visited[x]) && tour.visited[x].state == x;
    }
  }

  /** A finished tour has met them all. */
  lemma AllClonesMet(sc: Scene, tour: Tour)
    requires sc.Valid() && Sound(sc, tour) && Full(sc, tour) && tour.agenda == []
    ensures MetClones(sc.g, tour.visited.Keys) == ClonedAt(sc.g, sc.t, sc.start, sc.i)
  {
    MetClonesReached(sc, tour);
    forall x | x in ClonedAt(sc.g, sc.t, sc.start, sc.i)
      ensures x in MetClones(sc.g, tour.visited.Keys)
    {
      var p :| IsPath(sc.g, sc.t, sc.start, p) && At(sc.g, p) == sc.i && p.state == x;
      AllMet(sc, tour, p);
    }
  }

  lemma {:induction false} FramesAfterGrow(g: Graph, t: Subject, start: nat, a: nat, b: nat)
    requires a <= b
    ensures FramesAfter(g, t, start, a) <= FramesAfter(g, t, start, b)
    decreases b
  {
    if a < b {
      FramesAfterGrow(g, t, start, a, b - 1);
    }
  }

  // ---------------------------------------------------------------------
  // Where no thread is left
  // ---------------------------------------------------------------------

  /** A path past a boundary has left it through a terminal state. */
  lemma {:induction false} LeftThrough(g: Graph, t: Subject, start: nat, p: Path, i: nat) returns (q: Path)
    requires IsPath(g, t, start, p) && At(g, p) > i
    ensures IsPath(g, t, start, q) && At(g, q) == i && q.state < |g| && g[q.state].tag.IsTerminal()
    decreases p
  {
    if At(g, p.prev) > i {
      q := LeftThrough(g, t, start, p.prev, i);
    } else {
      q := p.prev;
    }
  }

  lemma LineupServes(g: Graph, t: Subject, start: nat, i: nat, threads: seq<Path>, r: Path)
    requires Lineup(g, t, start, i, threads, true)
    requires IsPath(g, t, start, r) && At(g, r) == i && r.state < |g| && g[r.state].tag.IsTerminal()
    ensures Served(g, threads, r)
  {
  }

  lemma NoThreadsNoPaths(g: Graph, t: Subject, start: nat, i: nat, p: Path)
    requires Lineup(g, t, start, i, [], true) && IsPath(g, t, start, p)
    ensures At(g, p) <= i
  {
    if At(g, p) > i {
      var q := LeftThrough(g, t, start, p, i);
      LineupServes(g, t, start, i, [], q);
    }
  }

  lemma {:induction false} NoThreadsNoClones(g: Graph, t: Subject, start: nat, i: nat, n: nat)
    requires Lineup(g, t, start, i, [], true) && i < n
    ensures FramesAfter(g, t, start, n) == FramesAfter(g, t, start, i + 1)
    decreases n
  {
    if i + 1 < n {
      NoThreadsNoClones(g, t, start, i, n - 1);
      forall p | IsPath(g, t, start, p)
        ensures At(g, p) != n - 1
      {
        NoThreadsNoPaths(g, t, start, i, p);
      }
      assert ClonedAt(g, t, start, n - 1) == {};
    }
  }

  // ---------------------------------------------------------------------
  // Paths to the accept state are matches
  // ---------------------------------------------------------------------

  lemma {:induction false} PathInText(g: Graph, t: Subject, start: nat, p: Path)
    requires IsPath(g, t, start, p)
    ensures At(g, p) <= |t.runes|
    decreases p
  {
    if p.Then? {
      PathInText(g, t, start, p.prev);
    }
  }

  /** A path leads to the accept state at a boundary exactly if the pattern matches up to there. */
  lemma AcceptPath(g: Graph, t: Subject, start: nat, r: Option<Regex>, i: nat)
    requires t.Valid() && i <= |t.runes| && Recognizes(g, start, r)
    ensures PatternMatches(r, t, 0, i) <==> exists p :: IsPath(g, t, start, p) && At(g, p) == i && p.state == 0
  {
    AcceptIffMatches(g, start, r, t, i);
    LiveIffReached(g, t, start, i, 0);
    if PatternMatches(r, t, 0, i) {
      var n: nat :| Run(g, t, n, Bare(start, 0), Bare(0, i));
      var p := RunIsPath(g, t, start, n, Start(start), [], Bare(0, i));
    }
    if p :| IsPath(g, t, start, p) && At(g, p) == i && p.state == 0 {
      PathReaches(g, t, start, [], p);
      assert Replay(g, t, [], p) == [];
    }
  }
}
