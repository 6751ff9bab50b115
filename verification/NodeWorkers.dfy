// The dependency worklist: NodeWorker in nodeworker.h.

module NodeWorkers {
  import opened Options

  type Node = nat

  datatype Status = Active | Blocked | Resolved

  /** What the worker keeps for a node it has seen. */
  datatype State = State(kind: Status, blockedOnCount: nat, dependents: set<Node>)

  type States = map<Node, State>

  /**
   * One step of the work on a node: nodes to add, and the nodes to wait for.
   * The step resolves the node unless one of these is still unresolved.
   */
  datatype Decision = Decision(adds: seq<Node>, waits: seq<Node>)

  predicate Distinct(s: seq<Node>)
  {
    forall i, j :: 0 <= i < j < |s| ==> s[i] != s[j]
  }

  /** The nodes a node is registered with as a dependent. */
  ghost function Origins(states: States, n: Node): set<Node>
  {
    set o | o in states && n in states[o].dependents
  }

  /** A blocked node's count plus one is the number of nodes it is registered with; other nodes are registered nowhere. */
  ghost predicate Counted(states: States, n: Node)
    requires n in states
  {
    if states[n].kind == Blocked then |Origins(states, n)| == states[n].blockedOnCount + 1
    else Origins(states, n) == {} && states[n].blockedOnCount == 0
  }

  /** The worklist holds every active node once, except those being worked on. */
  ghost predicate Queued(states: States, worklist: seq<Node>, busy: set<Node>)
  {
    && Distinct(worklist)
    && forall n :: n in worklist <==> n in states && states[n].kind == Active && n !in busy
  }

  /** Dependents have been seen; a resolved node has none left, unless it is just waking them. */
  ghost predicate Linked(states: States, releasing: Option<Node>)
  {
    && (forall o :: o in states ==> states[o].dependents <= states.Keys)
    && (forall o :: o in states && states[o].kind == Resolved && Some(o) != releasing ==> states[o].dependents == {})
  }

  /**
   * What holds of the bookkeeping between any two steps. `busy` holds the node
   * being worked on, which has left the worklist; `releasing` is the node
   * whose dependents are being woken.
   */
  ghost predicate Consistent(states: States, worklist: seq<Node>, busy: set<Node>, releasing: Option<Node>)
  {
    && Queued(states, worklist, busy)
    && (forall n :: n in states && n !in busy ==> Counted(states, n))
    && Linked(states, releasing)
    && busy <= states.Keys
  }

  /** The busy node waits for exactly the nodes in `registered` so far. */
  ghost predicate Waiting(states: States, n: Node, registered: set<Node>)
  {
    && n in states && Origins(states, n) == registered && states[n].blockedOnCount == 0
    && states[n].kind == (if registered == {} then Active else Blocked)
    && forall o :: o in registered ==> o in states && states[o].kind != Resolved
  }

  // ---------------------------------------------------------------------
  // Single changes
  // ---------------------------------------------------------------------

  lemma AddConsistent(states: States, worklist: seq<Node>, busy: set<Node>, n: Node)
    requires Consistent(states, worklist, busy, None) && n !in states
    ensures Consistent(states[n := State(Active, 0, {})], worklist + [n], busy, None)
    ensures forall m :: Origins(states[n := State(Active, 0, {})], m) == Origins(states, m)
  {
    var states' := states[n := State(Active, 0, {})];
    forall m
      ensures Origins(states', m) == Origins(states, m)
    {
    }
    assert Origins(states, n) == {} by {
      forall o | o in states
        ensures n !in states[o].dependents
      {
        assert states[o].dependents <= states.Keys;
      }
    }
  }

  /** The busy node becomes a dependent of an unresolved one. */
  function Register(states: States, n: Node, origin: Node): States
    requires n in states && origin in states
  {
    var s := states[origin := states[origin].(dependents := states[origin].dependents + {n})];
    s[n := s[n].(kind := Blocked)]
  }

  lemma RegisterOrigins(states: States, n: Node, origin: Node, m: Node)
    requires n in states && origin in states
    ensures Origins(Register(states, n, origin), m) == if m == n then Origins(states, m) + {origin} else Origins(states, m)
  {
  }

  lemma RegisterQueued(states: States, worklist: seq<Node>, n: Node, origin: Node)
    requires n in states && origin in states && Queued(states, worklist, {n}) && n !in worklist
    ensures Queued(Register(states, n, origin), worklist, {n})
  {
  }

  lemma RegisterWaiting(states: States, n: Node, registered: set<Node>, origin: Node)
    requires Waiting(states, n, registered) && origin in states && states[origin].kind != Resolved
    ensures Waiting(Register(states, n, origin), n, registered + {origin})
  {
    RegisterOrigins(states, n, origin, n);
  }

  lemma RegisterConsistent(states: States, worklist: seq<Node>, n: Node, registered: set<Node>, origin: Node)
    requires Consistent(states, worklist, {n}, None) && Waiting(states, n, registered)
    requires origin in states && states[origin].kind != Resolved
    ensures Consistent(Register(states, n, origin), worklist, {n}, None)
    ensures Waiting(Register(states, n, origin), n, registered + {origin})
  {
    RegisterWaiting(states, n, registered, origin);
    RegisterQueued(states, worklist, n, origin);
    forall m | m in Register(states, n, origin) && m != n
      ensures Counted(Register(states, n, origin), m)
    {
      RegisterCounted(states, n, origin, m);
    }
  }

  lemma RegisterCounted(states: States, n: Node, origin: Node, m: Node)
    requires n in states && origin in states && m in states && m != n && Counted(states, m)
    ensures Counted(Register(states, n, origin), m)
  {
    RegisterOrigins(states, n, origin, m);
  }

  function Sleep(states: States, n: Node, count: nat): States
    requires n in states
  {
    states[n := states[n].(blockedOnCount := count)]
  }

  lemma SleepOrigins(states: States, n: Node, count: nat, m: Node)
    requires n in states
    ensures Origins(Sleep(states, n, count), m) == Origins(states, m)
  {
  }

  lemma SleepQueued(states: States, worklist: seq<Node>, n: Node, count: nat)
    requires n in states && Queued(states, worklist, {n}) && states[n].kind == Blocked
    ensures Queued(Sleep(states, n, count), worklist, {})
  {
  }

  lemma SleepCounted(states: States, n: Node, count: nat, m: Node)
    requires n in states && m in states && states[n].kind == Blocked
    requires m != n ==> Counted(states, m)
    requires m == n ==> |Origins(states, n)| == count + 1
    ensures Counted(Sleep(states, n, count), m)
  {
    SleepOrigins(states, n, count, m);
  }

  /** The registered node goes to sleep with its count. */
  lemma SleepConsistent(states: States, worklist: seq<Node>, n: Node, registered: set<Node>, count: nat)
    requires Consistent(states, worklist, {n}, None) && Waiting(states, n, registered) && |registered| == count + 1
    ensures Consistent(Sleep(states, n, count), worklist, {}, None)
  {
    SleepQueued(states, worklist, n, count);
    forall m | m in states
      ensures Counted(Sleep(states, n, count), m)
    {
      assert m != n ==> Counted(states, m);
      SleepCounted(states, n, count, m);
    }
  }

  function Resolve(states: States, n: Node): States
    requires n in states
  {
    states[n := states[n].(kind := Resolved)]
  }

  lemma ResolveOrigins(states: States, n: Node, m: Node)
    requires n in states
    ensures Origins(Resolve(states, n), m) == Origins(states, m)
  {
  }

  /** The busy node, waiting for nothing, is resolved. */
  lemma ResolveConsistent(states: States, worklist: seq<Node>, n: Node)
    requires Consistent(states, worklist, {n}, None) && Waiting(states, n, {})
    ensures Consistent(Resolve(states, n), worklist, {}, Some(n))
  {
    var s := Resolve(states, n);
    forall m | m in s
      ensures Counted(s, m)
    {
      ResolveOrigins(states, n, m);
      assert m != n ==> Counted(states, m);
    }
  }

  /** One dependent of a resolved node is told: it waits for one node less, or becomes active again. */
  function Told(states: States, origin: Node, d: Node): States
    requires origin in states && d in states
  {
    var s := states[origin := states[origin].(dependents := states[origin].dependents - {d})];
    if s[d].kind != Blocked then s
    else if s[d].blockedOnCount > 0 then s[d := s[d].(blockedOnCount := s[d].blockedOnCount - 1)]
    else s[d := s[d].(kind := Active)]
  }

  lemma ToldOrigin(states: States, origin: Node, d: Node)
    requires origin in states && d in states && d != origin
    ensures Told(states, origin, d).Keys == states.Keys
    ensures Told(states, origin, d)[origin] == states[origin].(dependents := states[origin].dependents - {d})
  {
  }

  lemma ToldOrigins(states: States, origin: Node, d: Node, m: Node)
    requires origin in states && d in states && d != origin
    ensures Origins(Told(states, origin, d), m) == if m == d then Origins(states, m) - {origin} else Origins(states, m)
  {
  }

  lemma ToldCounted(states: States, origin: Node, d: Node)
    requires origin in states && d in states[origin].dependents && d in states && d != origin
    requires states[d].kind == Blocked && Counted(states, d)
    ensures Counted(Told(states, origin, d), d)
  {
    ToldOrigins(states, origin, d, d);
    assert origin in Origins(states, d);
    assert |Origins(states, d) - {origin}| == |Origins(states, d)| - 1;
  }

  lemma ToldQueued(states: States, worklist: seq<Node>, origin: Node, d: Node)
    requires Queued(states, worklist, {}) && origin in states && d in states && d != origin && states[d].kind == Blocked
    ensures Queued(Told(states, origin, d), if states[d].blockedOnCount == 0 then worklist + [d] else worklist, {})
  {
  }

  lemma ToldLinked(states: States, origin: Node, d: Node)
    requires Linked(states, Some(origin)) && origin in states && d in states && d != origin && states[d].kind == Blocked
    ensures Linked(Told(states, origin, d), Some(origin))
  {
  }

  lemma {:induction false} ToldConsistent(states: States, worklist: seq<Node>, origin: Node, d: Node)
    requires Consistent(states, worklist, {}, Some(origin)) && origin in states && states[origin].kind == Resolved
    requires d in states[origin].dependents
    ensures d in states && states[d].kind == Blocked && d != origin
    ensures Consistent(Told(states, origin, d), if states[d].blockedOnCount == 0 then worklist + [d] else worklist, {}, Some(origin))
  {
    assert d in states;
    assert origin in Origins(states, d) && Counted(states, d) && Counted(states, origin);
    var s := Told(states, origin, d);
    ToldQueued(states, worklist, origin, d);
    ToldCounted(states, origin, d);
    ToldLinked(states, origin, d);
    forall m | m in s && m != d
      ensures Counted(s, m)
    {
      ToldOrigins(states, origin, d, m);
      assert Counted(states, m);
    }
  }

  lemma ReleasedConsistent(states: States, worklist: seq<Node>, origin: Node)
    requires Consistent(states, worklist, {}, Some(origin)) && origin in states && states[origin].dependents == {}
    ensures Consistent(states, worklist, {}, None)
  {
  }

  // ---------------------------------------------------------------------
  // Blocking on a list
  // ---------------------------------------------------------------------

  /** The node is not resolved, or not known yet. */
  predicate Open(states: States, o: Node)
  {
    o !in states || states[o].kind != Resolved
  }

  /** The listed nodes that are not resolved, in order and as often as they are listed. */
  function OpenAmong(states: States, origins: seq<Node>): (open: seq<Node>)
    ensures forall o :: o in open <==> o in origins && Open(states, o)
  {
    if origins == [] then []
    else
      var init, last := origins[..|origins| - 1], origins[|origins| - 1];
      assert origins == init + [last];
      OpenAmong(states, init) + if Open(states, last) then [last] else []
  }

  ghost function Members(s: seq<Node>): set<Node> { set x | x in s }

  lemma OpenNext(states: States, origins: seq<Node>, i: nat, open: bool)
    requires i < |origins| && open == Open(states, origins[i])
    ensures |OpenAmong(states, origins[..i + 1])| == |OpenAmong(states, origins[..i])| + if open then 1 else 0
    ensures Members(OpenAmong(states, origins[..i + 1])) ==
            Members(OpenAmong(states, origins[..i])) + if open then {origins[i]} else {}
  {
    assert origins[..i + 1][..i] == origins[..i];
  }

  lemma {:induction false} MembersCount(s: seq<Node>)
    ensures |Members(s)| <= |s|
    ensures |Members(s)| == |s| <==> Distinct(s)
    decreases |s|
  {
    if s == [] {
      assert Members(s) == {};
    } else {
      var n := |s| - 1;
      var init, last := s[..n], s[n];
      MembersCount(init);
      assert s == init + [last];
      assert Members(s) == Members(init) + {last};
      if last in init {
        var k :| 0 <= k < n && init[k] == last;
        assert s[k] == s[n];
        assert Members(s) == Members(init);
      } else {
        forall a, b | 0 <= a < b < |s| && Distinct(init)
          ensures s[a] != s[b]
        {
          assert s[a] == init[a];
          if b < n {
            assert s[b] == init[b];
          }
        }
        if Distinct(s) {
          forall a, b | 0 <= a < b < n
            ensures init[a] != init[b]
          {
            assert init[a] == s[a] && init[b] == s[b];
          }
        }
      }
    }
  }

  /** No unresolved node is listed twice. */
  predicate OpenDistinct(states: States, origins: seq<Node>)
  {
    Distinct(OpenAmong(states, origins))
  }

  /**
   * When a node registers with every unresolved one of a list and goes to
   * sleep with one less than it counted, its count is right exactly if no
   * unresolved node is listed twice. Resolved ones may be.
   */
  lemma CountRightIff(states: States, n: Node, origins: seq<Node>, after: States)
    requires n in after && after[n].kind == Blocked
    requires Origins(after, n) == Members(OpenAmong(states, origins)) && OpenAmong(states, origins) != []
    ensures Counted(Sleep(after, n, |OpenAmong(states, origins)| - 1), n) <==> OpenDistinct(states, origins)
  {
    var count := |OpenAmong(states, origins)| - 1;
    MembersCount(OpenAmong(states, origins));
    SleepOrigins(after, n, count, n);
  }

  /**
   * A count that is too high is never made good: one node listed twice is
   * counted twice but registered with once, so when it resolves the node
   * stays blocked with nothing left to wake it.
   */
  lemma RepeatedOriginSticks(states: States, worklist: seq<Node>, n: Node, origin: Node)
    requires Consistent(states, worklist, {n}, None) && Waiting(states, n, {})
    requires n != origin && origin in states && states[origin].kind != Resolved
    ensures var asleep := Sleep(Register(Register(states, n, origin), n, origin), n, 1);
            var told := Told(Resolve(asleep, origin), origin, n);
            told[n].kind == Blocked && Origins(told, n) == {}
  {
    var once := Register(states, n, origin);
    var twice := Register(once, n, origin);
    var asleep := Sleep(twice, n, 1);
    RegisterOrigins(states, n, origin, n);
    RegisterOrigins(once, n, origin, n);
    SleepOrigins(twice, n, 1, n);
    ResolveOrigins(asleep, origin, n);
    ToldOrigins(Resolve(asleep, origin), origin, n, n);
    assert Origins(asleep, n) == {origin};
  }

  // ---------------------------------------------------------------------
  // Whole runs
  // ---------------------------------------------------------------------

  type Work = (Node, States) -> Decision

  /** Some step of the work on `n` waits for `o`. */
  ghost predicate MayWait(work: Work, n: Node, o: Node)
  {
    exists states :: o in work(n, states).waits
  }

  /** Steps stay within the universe and list no unresolved node twice to wait for. */
  ghost predicate Disciplined(work: Work, universe: set<Node>)
  {
    forall n, states :: n in universe ==>
      var d := work(n, states);
      && OpenDistinct(states, d.waits)
      && (forall o :: o in d.adds ==> o in universe)
      && (forall o :: o in d.waits ==> o in universe)
  }

  /** Registrations come from steps that wait. */
  ghost predicate Justified(work: Work, states: States)
  {
    forall o, n :: o in states && n in states[o].dependents ==> MayWait(work, n, o)
  }

  /** The step that resolved a node waited only for nodes that are resolved. */
  ghost predicate Earned(work: Work, states: States, steps: map<Node, States>)
  {
    forall n :: n in states && states[n].kind == Resolved ==>
      n in steps && forall o :: o in work(n, steps[n]).waits ==> o in states && states[o].kind == Resolved
  }

  /** Waiting cannot go in circles. */
  ghost predicate Acyclic(work: Work, rank: Node -> nat)
  {
    forall n, o :: MayWait(work, n, o) ==> rank(o) < rank(n)
  }

  ghost function ResolvedNodes(states: States): set<Node>
  {
    set n | n in states && states[n].kind == Resolved
  }

  /** When nothing is left to do, every node that is still blocked waits for an unresolved one. */
  lemma BlockedWaits(states: States, n: Node)
    requires Consistent(states, [], {}, None) && n in states
    ensures states[n].kind != Active
    ensures states[n].kind == Blocked ==>
              exists o :: o in states && n in states[o].dependents && states[o].kind == Blocked
  {
    assert n !in [];
    if states[n].kind == Blocked {
      assert Counted(states, n);
      var o :| o in Origins(states, n);
      assert states[o].dependents != {};
      assert o !in [];
    }
  }

  /** Without circular waiting every node ends up resolved. */
  lemma {:induction false} AcyclicResolves(work: Work, states: States, rank: Node -> nat, n: Node)
    requires Consistent(states, [], {}, None) && Justified(work, states) && Acyclic(work, rank) && n in states
    ensures states[n].kind == Resolved
    decreases rank(n)
  {
    BlockedWaits(states, n);
    if states[n].kind == Blocked {
      var o :| o in states && n in states[o].dependents && states[o].kind == Blocked;
      AcyclicResolves(work, states, rank, o);
    }
  }

  lemma AcyclicAll(work: Work, states: States, rank: Node -> nat)
    requires Consistent(states, [], {}, None) && Justified(work, states) && Acyclic(work, rank)
    ensures forall n :: n in states ==> states[n].kind == Resolved
  {
    forall n | n in states
      ensures states[n].kind == Resolved
    {
      AcyclicResolves(work, states, rank, n);
    }
  }

  lemma {:induction false} SubsetSize(a: set<Node>, b: set<Node>)
    requires a <= b
    ensures |a| <= |b|
    decreases |a|
  {
    if a != {} {
      var x :| x in a;
      SubsetSize(a - {x}, b - {x});
    }
  }

  /** Nodes seen before are still there, and the resolved ones are the same. */
  ghost predicate Evolves(before: States, after: States)
  {
    before.Keys <= after.Keys && ResolvedNodes(before) == ResolvedNodes(after)
  }

  /** The worklist changes only when new nodes are met. */
  ghost predicate Meets(before: States, was: seq<Node>, after: States, now: seq<Node>)
  {
    before.Keys <= after.Keys && (before.Keys == after.Keys ==> was == now)
  }

  /** The parts of the worker's soundness that do not concern the worklist. */
  ghost predicate Sane(work: Work, universe: set<Node>, states: States, steps: map<Node, States>)
  {
    states.Keys <= universe && Justified(work, states) && Earned(work, states, steps)
  }

  lemma {:induction false} RegisterSane(work: Work, universe: set<Node>, states: States, steps: map<Node, States>, n: Node, origin: Node)
    requires Sane(work, universe, states, steps) && n in states && origin in states && MayWait(work, n, origin)
    requires states[n].kind != Resolved && states[origin].kind != Resolved
    ensures Sane(work, universe, Register(states, n, origin), steps)
    ensures Evolves(states, Register(states, n, origin))
  {
    var s := Register(states, n, origin);
    forall m | m in states
      ensures s[m].kind == Resolved <==> states[m].kind == Resolved
      ensures s[m].dependents == states[m].dependents || (m == origin && s[m].dependents == states[m].dependents + {n})
    {
    }
  }

  lemma SleepSane(work: Work, universe: set<Node>, states: States, steps: map<Node, States>, n: Node, count: nat)
    requires Sane(work, universe, states, steps) && n in states
    ensures Sane(work, universe, Sleep(states, n, count), steps) && Evolves(states, Sleep(states, n, count))
  {
    var s := Sleep(states, n, count);
    forall m | m in states
      ensures s[m].kind == states[m].kind && s[m].dependents == states[m].dependents
    {
    }
  }

  lemma {:induction false} ToldSane(work: Work, universe: set<Node>, states: States, steps: map<Node, States>, origin: Node, d: Node)
    requires Sane(work, universe, states, steps) && origin in states && d in states && d != origin && states[d].kind == Blocked
    ensures Sane(work, universe, Told(states, origin, d), steps) && Evolves(states, Told(states, origin, d))
  {
    var s := Told(states, origin, d);
    forall m | m in states
      ensures s[m].kind == Resolved <==> states[m].kind == Resolved
      ensures s[m].dependents <= states[m].dependents
    {
    }
  }

  lemma StaysOpen(before: States, after: States, o: Node)
    requires Evolves(before, after)
    ensures Open(before, o) <==> Open(after, o)
  {
    assert o in ResolvedNodes(before) <==> o in ResolvedNodes(after);
  }

  /** Nodes stay open while new ones are met. */
  lemma {:induction false} OpenStays(before: States, after: States, origins: seq<Node>)
    requires Evolves(before, after)
    ensures OpenAmong(before, origins) == OpenAmong(after, origins)
    decreases |origins|
  {
    if origins != [] {
      StaysOpen(before, after, origins[|origins| - 1]);
      OpenStays(before, after, origins[..|origins| - 1]);
    }
  }

  /** Each of the listed nodes is registered with or resolved. */
  ghost predicate Settled(states: States, list: seq<Node>, registered: set<Node>)
  {
    forall o :: o in list ==> o in states && (o in registered || states[o].kind == Resolved)
  }

  lemma SettledNext(before: States, after: States, origins: seq<Node>, i: nat, registered: set<Node>, blocked: bool)
    requires i < |origins| && Settled(before, origins[..i], registered) && Evolves(before, after)
    requires origins[i] in after && (blocked <==> after[origins[i]].kind != Resolved)
    ensures Settled(after, origins[..i + 1], if blocked then registered + {origins[i]} else registered)
  {
    StillResolved(before, after);
    assert origins[..i + 1] == origins[..i] + [origins[i]];
  }

  lemma StillResolved(before: States, after: States)
    requires Evolves(before, after)
    ensures forall o :: o in before && before[o].kind == Resolved ==> o in after && after[o].kind == Resolved
  {
    forall o | o in before && before[o].kind == Resolved
      ensures after[o].kind == Resolved
    {
      assert o in ResolvedNodes(before);
      assert o in ResolvedNodes(after);
    }
  }

  lemma {:induction false} ResolveSane(work: Work, universe: set<Node>, states: States, steps: map<Node, States>, n: Node, at: States)
    requires Sane(work, universe, states, steps) && n in states && states[n].kind != Resolved
    requires forall o :: o in work(n, at).waits ==> o in states && states[o].kind == Resolved
    ensures Sane(work, universe, Resolve(states, n), steps[n := at])
    ensures ResolvedNodes(Resolve(states, n)) == ResolvedNodes(states) + {n}
  {
    var s := Resolve(states, n);
    forall m | m in states
      ensures s[m].dependents == states[m].dependents
      ensures s[m].kind == Resolved <==> states[m].kind == Resolved || m == n
    {
    }
  }

  /** The first node of the worklist becomes the busy one. */
  lemma PopConsistent(states: States, worklist: seq<Node>)
    requires Consistent(states, worklist, {}, None) && worklist != []
    ensures Consistent(states, worklist[1..], {worklist[0]}, None)
    ensures worklist[0] in states && states[worklist[0]].kind == Active && Waiting(states, worklist[0], {})
  {
    var n := worklist[0];
    assert n in worklist;
    assert Counted(states, n);
    forall m
      ensures m in worklist[1..] <==> m in worklist && m != n
    {
      if m in worklist && m != n {
        var j :| 0 <= j < |worklist| && worklist[j] == m;
        assert worklist[1..][j - 1] == m;
      }
    }
  }

  /** A round resolves a node, meets a new one, or shortens the worklist. */
  ghost predicate Advances(before: States, was: seq<Node>, after: States, now: seq<Node>)
  {
    && before.Keys <= after.Keys
    && (ResolvedNodes(before) < ResolvedNodes(after) ||
        (ResolvedNodes(before) == ResolvedNodes(after) && (before.Keys < after.Keys || |now| < |was|)))
  }

  lemma ProperSubsetSize(a: set<Node>, b: set<Node>)
    requires a < b
    ensures |a| < |b|
  {
    var x :| x in b && x !in a;
    SubsetSize(a, b - {x});
  }

  lemma Progress(universe: set<Node>, before: States, was: seq<Node>, after: States, now: seq<Node>)
    requires Advances(before, was, after, now) && after.Keys <= universe
    ensures |ResolvedNodes(after)| <= |universe| && |after.Keys| <= |universe|
    ensures |ResolvedNodes(before)| < |ResolvedNodes(after)| ||
            (|ResolvedNodes(before)| == |ResolvedNodes(after)| &&
             (|before.Keys| < |after.Keys| || (before.Keys == after.Keys && |now| < |was|)))
  {
    SubsetSize(after.Keys, universe);
    SubsetSize(ResolvedNodes(after), universe);
    if ResolvedNodes(before) < ResolvedNodes(after) {
      ProperSubsetSize(ResolvedNodes(before), ResolvedNodes(after));
    } else if before.Keys < after.Keys {
      ProperSubsetSize(before.Keys, after.Keys);
    }
  }

  lemma AddSane(work: Work, universe: set<Node>, states: States, steps: map<Node, States>, n: Node)
    requires Sane(work, universe, states, steps) && n !in states && n in universe
    ensures Sane(work, universe, states[n := State(Active, 0, {})], steps)
    ensures Evolves(states, states[n := State(Active, 0, {})])
  {
  }

  lemma MeetsOn(a: States, u: seq<Node>, b: States, v: seq<Node>, c: States, w: seq<Node>)
    requires Meets(a, u, b, v) && Meets(b, v, c, w)
    ensures Meets(a, u, c, w)
  {
  }

  /** The first `i` listed nodes have been registered with, starting from the given states. */
  ghost predicate Enrolled(start: States, was: seq<Node>, states: States, now: seq<Node>, n: Node, origins: seq<Node>, i: nat, count: nat)
    requires i <= |origins|
  {
    var open := OpenAmong(start, origins[..i]);
    && Waiting(states, n, Members(open)) && count == |open|
    && Evolves(start, states) && Meets(start, was, states, now)
    && Settled(states, origins[..i], Members(open))
  }

  lemma EnrolNext(start: States, was: seq<Node>, before: States, queue: seq<Node>, states: States, now: seq<Node>,
                  n: Node, origins: seq<Node>, i: nat, count: nat, blocked: bool, registered: set<Node>)
    requires i < |origins| && Enrolled(start, was, before, queue, n, origins, i, count)
    requires registered == Members(OpenAmong(start, origins[..i]))
    requires Evolves(before, states) && Meets(before, queue, states, now) && origins[i] in states
    requires blocked <==> states[origins[i]].kind != Resolved
    requires Waiting(states, n, if blocked then registered + {origins[i]} else registered)
    ensures Enrolled(start, was, states, now, n, origins, i + 1, if blocked then count + 1 else count)
  {
    SettledNext(before, states, origins, i, registered, blocked);
    MeetsOn(start, was, before, queue, states, now);
    StaysOpen(start, states, origins[i]);
    OpenNext(start, origins, i, blocked);
    assert registered + {} == registered;
  }

  class NodeWorker {
    const work: Work
    var states: States
    var worklist: seq<Node>
    ghost var steps: map<Node, States>
    ghost const universe: set<Node>

    ghost predicate Sound(busy: set<Node>, releasing: Option<Node>)
      reads this
    {
      && Disciplined(work, universe)
      && Consistent(states, worklist, busy, releasing) && Sane(work, universe, states, steps)
    }

    constructor (work: Work, ghost universe: set<Node>)
      requires Disciplined(work, universe)
      ensures Sound({}, None) && states == map[] && this.work == work && this.universe == universe
    {
      this.work := work;
      this.universe := universe;
      states, worklist, steps := map[], [], map[];
    }

    /** A node that has not been seen becomes active and is queued. */
    method Add(n: Node, ghost busy: set<Node>)
      requires Sound(busy, None) && n in universe
      modifies this`states, this`worklist
      ensures Sound(busy, None) && n in states && Evolves(old(states), states)
      ensures Meets(old(states), old(worklist), states, worklist)
      ensures if n in old(states) then states == old(states) && worklist == old(worklist)
              else states == old(states)[n := State(Active, 0, {})] && worklist == old(worklist) + [n]
      ensures forall m :: Origins(states, m) == Origins(old(states), m)
    {
      if n !in states {
        AddConsistent(states, worklist, busy, n);
        AddSane(work, universe, states, steps, n);
        states, worklist := states[n := State(Active, 0, {})], worklist + [n];
      }
    }

    method AddAll(roots: seq<Node>)
      requires Sound({}, None) && forall r :: r in roots ==> r in universe
      modifies this`states, this`worklist
      ensures Sound({}, None) && forall r :: r in roots ==> r in states
    {
      for i := 0 to |roots|
        invariant Sound({}, None) && forall j :: 0 <= j < i ==> roots[j] in states
      {
        assert roots[i] in roots;
        Add(roots[i], {});
      }
    }

    /** Registers the busy node with an unresolved one. */
    method BlockOn(n: Node, origin: Node, ghost registered: set<Node>) returns (blocked: bool)
      requires Sound({n}, None) && Waiting(states, n, registered) && origin in universe && MayWait(work, n, origin)
      modifies this`states, this`worklist
      ensures Sound({n}, None) && Evolves(old(states), states) && origin in states
      ensures Meets(old(states), old(worklist), states, worklist)
      ensures blocked <==> states[origin].kind != Resolved
      ensures Waiting(states, n, if blocked then registered + {origin} else registered)
    {
      Add(origin, {n});
      if states[origin].kind == Resolved {
        return false;
      }
      RegisterConsistent(states, worklist, n, registered, origin);
      RegisterSane(work, universe, states, steps, n, origin);
      states := Register(states, n, origin);
      return true;
    }

    method RegisterNext(n: Node, origins: seq<Node>, i: nat, count: nat, ghost start: States, ghost was: seq<Node>)
      returns (count': nat)
      requires i < |origins| && Sound({n}, None) && Enrolled(start, was, states, worklist, n, origins, i, count)
      requires origins[i] in universe && MayWait(work, n, origins[i])
      modifies this`states, this`worklist
      ensures Sound({n}, None) && Enrolled(start, was, states, worklist, n, origins, i + 1, count')
    {
      ghost var registered := Members(OpenAmong(start, origins[..i]));
      var b := BlockOn(n, origins[i], registered);
      EnrolNext(start, was, old(states), old(worklist), states, worklist, n, origins, i, count, b, registered);
      count' := if b then count + 1 else count;
    }

    /** Registers the busy node with the unresolved ones of a list and counts them as often as they are listed. */
    method RegisterAll(n: Node, origins: seq<Node>) returns (count: nat)
      requires Sound({n}, None) && Waiting(states, n, {})
      requires forall o :: o in origins ==> o in universe && MayWait(work, n, o)
      modifies this`states, this`worklist
      ensures Sound({n}, None) && Waiting(states, n, Members(OpenAmong(old(states), origins)))
      ensures count == |OpenAmong(old(states), origins)|
      ensures Evolves(old(states), states) && Meets(old(states), old(worklist), states, worklist)
      ensures Settled(states, origins, Members(OpenAmong(old(states), origins)))
    {
      count := 0;
      assert OpenAmong(states, origins[..0]) == [] && Members([]) == {};
      for i := 0 to |origins|
        invariant Sound({n}, None) && Enrolled(old(states), old(worklist), states, worklist, n, origins, i, count)
      {
        assert origins[i] in origins;
        count := RegisterNext(n, origins, i, count, old(states), old(worklist));
      }
      assert origins[..|origins|] == origins;
    }

    /**
     * Registers the busy node with every unresolved one of the list. If there
     * are any it goes to sleep until the last of them resolves, which is
     * right because none is listed twice.
     */
    method BlockOnAll(n: Node, origins: seq<Node>) returns (blocked: bool)
      requires Sound({n}, None) && Waiting(states, n, {})
      requires OpenDistinct(states, origins) && forall o :: o in origins ==> o in universe && MayWait(work, n, o)
      modifies this`states, this`worklist
      ensures Sound(if blocked then {} else {n}, None) && Evolves(old(states), states)
      ensures Meets(old(states), old(worklist), states, worklist)
      ensures n in states && states[n].kind == if blocked then Blocked else Active
      ensures blocked <==> exists o :: o in origins && Open(old(states), o)
      ensures blocked ==> Origins(states, n) == Members(OpenAmong(old(states), origins))
      ensures !blocked ==> Waiting(states, n, {}) && forall o :: o in origins ==> o in states && states[o].kind == Resolved
    {
      ghost var open := OpenAmong(states, origins);
      var count := RegisterAll(n, origins);
      MembersCount(open);
      if count == 0 {
        assert Members(open) == {};
        return false;
      }
      assert open[0] in open;
      FallAsleep(n, count - 1, Members(open));
      return true;
    }

    /** The registered node keeps how many of its origins must resolve before the last one does. */
    method FallAsleep(n: Node, count: nat, ghost registered: set<Node>)
      requires Sound({n}, None) && Waiting(states, n, registered) && |registered| == count + 1
      modifies this`states
      ensures Sound({}, None) && Evolves(old(states), states) && n in states && states[n].kind == Blocked
      ensures states.Keys == old(states).Keys && worklist == old(worklist) && Origins(states, n) == registered
    {
      SleepOrigins(states, n, count, n);
      SleepConsistent(states, worklist, n, registered, count);
      SleepSane(work, universe, states, steps, n, count);
      var kept, least := states[n].blockedOnCount, count;
      if 0 < kept < least {
        least := kept;
      }
      states := Sleep(states, n, least);
    }

    /** One dependent hears that a node it waits for is resolved. */
    method Tell(origin: Node, d: Node)
      requires Sound({}, Some(origin)) && origin in states && states[origin].kind == Resolved && d in states[origin].dependents
      modifies this`states, this`worklist
      ensures Sound({}, Some(origin)) && d in old(states) && states == Told(old(states), origin, d)
      ensures Evolves(old(states), states) && states.Keys == old(states).Keys
      ensures states[origin].kind == Resolved && states[origin].dependents == old(states)[origin].dependents - {d}
    {
      ToldConsistent(states, worklist, origin, d);
      ToldSane(work, universe, states, steps, origin, d);
      ToldOrigin(states, origin, d);
      var s := states[d];
      if s.kind == Blocked && s.blockedOnCount == 0 {
        worklist := worklist + [d];
      }
      states := Told(states, origin, d);
    }

    /** Wakes the dependents of a resolved node: those that wait for nothing else are queued again. */
    method UnblockDependents(origin: Node)
      requires Sound({}, Some(origin)) && origin in states && states[origin].kind == Resolved
      modifies this`states, this`worklist
      ensures Sound({}, None) && Evolves(old(states), states) && states.Keys == old(states).Keys
    {
      var waiting := states[origin].dependents;
      while waiting != {}
        invariant Sound({}, Some(origin)) && origin in states && states[origin].kind == Resolved
        invariant states[origin].dependents == waiting
        invariant Evolves(old(states), states) && states.Keys == old(states).Keys
        decreases waiting
      {
        var d :| d in waiting;
        Tell(origin, d);
        waiting := waiting - {d};
      }
      ReleasedConsistent(states, worklist, origin);
    }

    /** One step of the work on the busy node; tells whether the node is done. */
    method Process(n: Node) returns (done: bool, ghost at: States)
      requires Sound({n}, None) && Waiting(states, n, {}) && n in universe
      modifies this`states, this`worklist
      ensures Sound(if done then {n} else {}, None) && Evolves(old(states), states)
      ensures Meets(old(states), old(worklist), states, worklist)
      ensures n in states && (done ==> Waiting(states, n, {}))
      ensures !done ==> states[n].kind == Blocked
      ensures done ==> forall o :: o in work(n, at).waits ==> o in states && states[o].kind == Resolved
    {
      at := states;
      var d := work(n, states);
      for i := 0 to |d.adds|
        invariant Sound({n}, None) && Evolves(old(states), states) && Waiting(states, n, {})
        invariant Meets(old(states), old(worklist), states, worklist)
      {
        assert d.adds[i] in d.adds;
        Add(d.adds[i], {n});
      }
      OpenStays(at, states, d.waits);
      var blocked := BlockOnAll(n, d.waits);
      done := !blocked;
    }

    /**
     * Works until the worklist is empty, which it always becomes. Then every
     * node is resolved or blocked, a blocked node waits for a blocked one, and
     * a resolved node's last step waited only for resolved nodes.
     */
    method Run()
      requires Sound({}, None)
      modifies this
      ensures Sound({}, None) && worklist == [] && old(states).Keys <= states.Keys
      ensures forall n :: n in states ==> states[n].kind != Active
      ensures forall n :: n in states && states[n].kind == Blocked ==>
                exists o :: o in states && n in states[o].dependents && states[o].kind == Blocked
    {
      while worklist != []
        invariant Sound({}, None) && old(states).Keys <= states.Keys
        decreases |universe| - |ResolvedNodes(states)|, |universe| - |states.Keys|, |worklist|
      {
        ghost var before, was := states, worklist;
        Round();
        Progress(universe, before, was, states, worklist);
      }
      forall n | n in states
        ensures states[n].kind != Active
        ensures states[n].kind == Blocked ==>
                  exists o :: o in states && n in states[o].dependents && states[o].kind == Blocked
      {
        BlockedWaits(states, n);
      }
    }

    /** Takes the first node off the worklist and does one step of its work. */
    method Round()
      requires Sound({}, None) && worklist != []
      modifies this
      ensures Sound({}, None) && Advances(old(states), old(worklist), states, worklist)
    {
      var current := worklist[0];
      PopConsistent(states, worklist);
      worklist := worklist[1..];
      var done;
      ghost var at;
      done, at := Process(current);
      if done {
        Finish(current, at, old(states));
      }
    }

    /** The busy node is resolved and its dependents are woken. */
    method Finish(n: Node, ghost at: States, ghost before: States)
      requires Sound({n}, None) && Waiting(states, n, {}) && Evolves(before, states) && n in before && before[n].kind != Resolved
      requires forall o :: o in work(n, at).waits ==> o in states && states[o].kind == Resolved
      modifies this
      ensures Sound({}, None) && before.Keys <= states.Keys
      ensures ResolvedNodes(states) == ResolvedNodes(before) + {n} && n !in ResolvedNodes(before)
    {
      ResolveConsistent(states, worklist, n);
      ResolveSane(work, universe, states, steps, n, at);
      states := Resolve(states, n);
      steps := steps[n := at];
      UnblockDependents(n);
    }
  }

  /** Starting from any nodes of an acyclic work, a run resolves every node it meets. */
  method RunAll(work: Work, roots: seq<Node>, ghost universe: set<Node>, ghost rank: Node -> nat) returns (worker: NodeWorker)
    requires Disciplined(work, universe) && Acyclic(work, rank)
    requires forall r :: r in roots ==> r in universe
    ensures fresh(worker) && forall r :: r in roots ==> r in worker.states
    ensures forall n :: n in worker.states ==> worker.states[n].kind == Resolved
  {
    worker := new NodeWorker(work, universe);
    worker.AddAll(roots);
    worker.Run();
    AcyclicAll(work, worker.states, rank);
  }
}
