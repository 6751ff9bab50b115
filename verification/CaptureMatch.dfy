// The prefix matcher with captures: add_state_capturing and
// find_prefix_with_context in regex_engine.h. Threads carry copy-on-write
// capture frames, and one shared set of visited states prunes each step.

module CaptureMatch {
  import opened Options
  import opened Utf8
  import opened RuneClasses
  import opened RegexSemantics
  import opened Nfa
  import opened Reachability
  import opened Closures
  import opened Engine
  import opened CapturePaths
  import opened CaptureTours
  import Postfix

  /** A capture span in byte offsets; both ends are unset if the group did not take part. */
  datatype Capture = Capture(start: Option<nat>, end: Option<nat>)

  function Unset(groups: nat): Captures
  {
    seq(2 * groups, _ => None)
  }

  // ---------------------------------------------------------------------
  // Frames record paths
  // ---------------------------------------------------------------------

  /** The frame holds the captures recorded along the path. */
  ghost predicate Carries(e: RegexEngine, t: Subject, frames: seq<Captures>, frame: nat, p: Path)
    requires t.Valid()
  {
    frame < |frames| && frames[frame] == Replay(e.states, t, Unset(e.numCaptures), p)
  }

  /** An entry of the traversal stack. */
  datatype StackEntry = StackEntry(state: Ptr, frame: nat)

  ghost predicate EntryCarries(e: RegexEngine, t: Subject, frames: seq<Captures>, entry: StackEntry, q: Option<Path>)
    requires t.Valid()
  {
    match q
    case None => entry.state.Null?
    case Some(p) => entry.state == To(p.state) && Carries(e, t, frames, entry.frame, p)
  }

  /** The entries stand for the last paths of the agenda. */
  ghost predicate StackCarries(e: RegexEngine, t: Subject, frames: seq<Captures>, stack: seq<StackEntry>,
                               agenda: seq<Option<Path>>, below: nat)
    requires t.Valid()
  {
    |agenda| == below + |stack| && forall k :: 0 <= k < |stack| ==> EntryCarries(e, t, frames, stack[k], agenda[below + k])
  }

  ghost predicate ThreadsCarry(e: RegexEngine, t: Subject, frames: seq<Captures>, threads: seq<Thread>, paths: seq<Path>)
    requires t.Valid()
  {
    && |paths| == |threads|
    && forall k :: 0 <= k < |threads| ==> ThreadCarries(e, t, frames, threads[k], paths[k])
  }

  ghost predicate ThreadCarries(e: RegexEngine, t: Subject, frames: seq<Captures>, thread: Thread, p: Path)
    requires t.Valid()
  {
    thread.state == p.state && Carries(e, t, frames, thread.frame, p)
  }

  /** Growing the arena leaves all records in place. */
  lemma ArenaGrows(e: RegexEngine, t: Subject, frames: seq<Captures>, more: seq<Captures>, threads: seq<Thread>, paths: seq<Path>,
                   stack: seq<StackEntry>, agenda: seq<Option<Path>>, below: nat)
    requires t.Valid() && frames <= more
    ensures ThreadsCarry(e, t, frames, threads, paths) ==> ThreadsCarry(e, t, more, threads, paths)
    ensures StackCarries(e, t, frames, stack, agenda, below) ==> StackCarries(e, t, more, stack, agenda, below)
  {
    if StackCarries(e, t, frames, stack, agenda, below) {
      forall k | 0 <= k < |stack|
        ensures EntryCarries(e, t, more, stack[k], agenda[below + k])
      {
        assert EntryCarries(e, t, frames, stack[k], agenda[below + k]);
      }
    }
  }

  // ---------------------------------------------------------------------
  // Frames in use
  // ---------------------------------------------------------------------

  /** The arena has room for a clone at every capture state that a path reaches, boundary by boundary. */
  ghost predicate Room(e: RegexEngine, t: Subject)
  {
    e.numCaptures > 0 ==>
      FramesAfter(e.states, t, e.startState, |t.runes| + 1) <= FrameLimit(2 * e.numCaptures)
  }

  /** Until a clone is refused, one frame is in use per capture state met; it is refused only where the room does not suffice. */
  ghost predicate Supplied(e: RegexEngine, sc: Scene, base: nat, visited: set<nat>, frames: seq<Captures>, exhausted: bool)
  {
    && e.numCaptures > 0 && |frames| <= FrameLimit(2 * e.numCaptures)
    && if exhausted then !Room(e, sc.t) && |frames| == FrameLimit(2 * e.numCaptures)
       else base == FramesAfter(e.states, sc.t, e.startState, sc.i) && |frames| == base + |MetClones(e.states, visited)|
  }

  lemma MeetClones(g: Graph, visited: set<nat>, x: nat)
    requires x !in visited
    ensures |MetClones(g, visited + {x})| == |MetClones(g, visited)| + if Clones(g, x) then 1 else 0
  {
    assert MetClones(g, visited + {x}) == MetClones(g, visited) + if Clones(g, x) then {x} else {};
  }

  lemma {:induction false} SubsetCount(a: set<nat>, b: set<nat>)
    requires a <= b
    ensures |a| <= |b|
    decreases a
  {
    if a != {} {
      var x :| x in a;
      SubsetCount(a - {x}, b - {x});
    }
  }

  /** With all frames in use and one more capture state to visit, the room does not suffice. */
  lemma RefusedForNoRoom(e: RegexEngine, sc: Scene, base: nat, frames: seq<Captures>, tour: Tour)
    requires sc.g == e.states && sc.start == e.startState && sc.Valid() && Sound(sc, tour)
    requires Supplied(e, sc, base, tour.visited.Keys, frames, false) && |frames| >= FrameLimit(2 * e.numCaptures)
    requires tour.agenda != [] && Unvisited(tour, Top(tour)) && Clones(e.states, Top(tour).value.state)
    ensures !Room(e, sc.t)
  {
    OneMoreNeeded(sc, tour);
  }

  lemma OneMoreNeeded(sc: Scene, tour: Tour)
    requires sc.Valid() && Sound(sc, tour) && tour.agenda != [] && Unvisited(tour, Top(tour)) && Clones(sc.g, Top(tour).value.state)
    ensures FramesAfter(sc.g, sc.t, sc.start, |sc.t.runes| + 1) >
            FramesAfter(sc.g, sc.t, sc.start, sc.i) + |MetClones(sc.g, tour.visited.Keys)|
  {
    var x := Top(tour).value.state;
    OneMoreReached(sc, tour);
    SubsetCount(MetClones(sc.g, tour.visited.Keys) + {x}, ClonedAt(sc.g, sc.t, sc.start, sc.i));
    FramesAfterGrow(sc.g, sc.t, sc.start, sc.i + 1, |sc.t.runes| + 1);
  }

  lemma OneMoreReached(sc: Scene, tour: Tour)
    requires sc.Valid() && Sound(sc, tour) && tour.agenda != [] && Unvisited(tour, Top(tour)) && Clones(sc.g, Top(tour).value.state)
    ensures var x := Top(tour).value.state;
            x !in MetClones(sc.g, tour.visited.Keys) &&
            MetClones(sc.g, tour.visited.Keys) + {x} <= ClonedAt(sc.g, sc.t, sc.start, sc.i)
  {
    MetClonesReached(sc, tour);
    assert sc.Here(Top(tour).value);
  }

  // ---------------------------------------------------------------------
  // Depth-first insertion of threads
  // ---------------------------------------------------------------------

  /** The traversal follows the tour; the first `below` entries of the agenda belong to threads that wait for their turn. */
  ghost predicate Touring(e: RegexEngine, sc: Scene, base: nat, visited: set<nat>, frames: seq<Captures>,
                          threads: seq<Thread>, stack: seq<StackEntry>, tour: Tour, below: nat, exhausted: bool)
  {
    && Led(e, sc, visited, tour, exhausted) && Supplied(e, sc, base, visited, frames, exhausted)
    && ThreadsCarry(e, sc.t, frames, threads, tour.threads)
    && StackCarries(e, sc.t, frames, stack, tour.agenda, below)
  }

  ghost predicate Led(e: RegexEngine, sc: Scene, visited: set<nat>, tour: Tour, exhausted: bool)
  {
    && sc.g == e.states && sc.start == e.startState && sc.Valid()
    && Sound(sc, tour) && tour.visited.Keys == visited && (!exhausted ==> Full(sc, tour))
  }

  /** Popping a null pointer or a visited state. */
  lemma PopSeen(e: RegexEngine, sc: Scene, base: nat, visited: set<nat>, frames: seq<Captures>,
                threads: seq<Thread>, stack: seq<StackEntry>, tour: Tour, below: nat, exhausted: bool)
    requires Touring(e, sc, base, visited, frames, threads, stack, tour, below, exhausted) && stack != []
    requires stack[|stack| - 1].state.Null? || stack[|stack| - 1].state.id in visited
    ensures Touring(e, sc, base, visited, frames, threads, stack[..|stack| - 1], Dropped(tour), below, exhausted)
  {
    assert EntryCarries(e, sc.t, frames, stack[|stack| - 1], tour.agenda[below + |stack| - 1]);
    DropKeeps(sc, tour);
  }

  lemma TopFrame(e: RegexEngine, t: Subject, frames: seq<Captures>, stack: seq<StackEntry>, agenda: seq<Option<Path>>, below: nat)
    requires t.Valid() && StackCarries(e, t, frames, stack, agenda, below) && stack != [] && stack[|stack| - 1].state.To?
    ensures stack[|stack| - 1].frame < |frames| && agenda != [] && agenda[|agenda| - 1].Some?
  {
    assert EntryCarries(e, t, frames, stack[|stack| - 1], agenda[below + |stack| - 1]);
  }

  /** The path of the entry on top, and its frame. */
  lemma TopEntry(e: RegexEngine, sc: Scene, base: nat, visited: set<nat>, frames: seq<Captures>,
                 threads: seq<Thread>, stack: seq<StackEntry>, tour: Tour, below: nat, exhausted: bool)
    requires Touring(e, sc, base, visited, frames, threads, stack, tour, below, exhausted) && stack != []
    requires stack[|stack| - 1].state.To?
    ensures tour.agenda != [] && Top(tour).Some? && sc.Here(Top(tour).value)
    ensures stack[|stack| - 1].state == To(Top(tour).value.state)
    ensures Carries(e, sc.t, frames, stack[|stack| - 1].frame, Top(tour).value)
  {
    assert EntryCarries(e, sc.t, frames, stack[|stack| - 1], tour.agenda[below + |stack| - 1]);
  }

  /** The pushed entries stand for moves out of the state on top, for all of them unless the move is cut. */
  ghost predicate Pushed(e: RegexEngine, sc: Scene, frames: seq<Captures>, p: Path, pushed: seq<StackEntry>, paths: seq<Option<Path>>, cut: bool)
    requires sc.Valid()
  {
    && StackCarries(e, sc.t, frames, pushed, paths, 0)
    && Moves(sc, p, paths) && (!cut ==> AllMoves(sc, p, paths))
  }

  /** Visiting a new state. */
  lemma {:induction false} Expand(e: RegexEngine, sc: Scene, base: nat, visited: set<nat>, frames: seq<Captures>, threads: seq<Thread>, stack: seq<StackEntry>,
               tour: Tour, below: nat, exhausted: bool, more: seq<Captures>, pushed: seq<StackEntry>, paths: seq<Option<Path>>, cut: bool)
    requires Touring(e, sc, base, visited, frames, threads, stack, tour, below, exhausted) && stack != []
    requires stack[|stack| - 1].state.To? && stack[|stack| - 1].state.id !in visited && frames <= more
    requires tour.agenda != [] && Top(tour).Some? && Pushed(e, sc, more, Top(tour).value, pushed, paths, cut)
    requires cut ==> more == frames && |frames| >= FrameLimit(2 * e.numCaptures)
    requires Clones(e.states, stack[|stack| - 1].state.id) <== cut
    requires !cut ==> |more| == |frames| + if Clones(e.states, stack[|stack| - 1].state.id) then 1 else 0
    requires |more| <= FrameLimit(2 * e.numCaptures)
    ensures var x := stack[|stack| - 1].state.id;
            var threads' := if x < |e.states| && e.states[x].tag.IsTerminal() then threads + [Thread(x, stack[|stack| - 1].frame)] else threads;
            Touring(e, sc, base, visited + {x}, more, threads', stack[..|stack| - 1] + pushed, Met(sc.g, tour, paths), below, exhausted || cut)
  {
    var x := stack[|stack| - 1].state.id;
    TopEntry(e, sc, base, visited, frames, threads, stack, tour, below, exhausted);
    assert Top(tour).value.state == x;
    ExpandLed(e, sc, visited, tour, exhausted, paths, cut);
    ExpandSupplied(e, sc, base, visited, frames, tour, exhausted, more, cut);
    ArenaGrows(e, sc.t, frames, more, threads, tour.threads, stack, tour.agenda, below);
    StackReplaced(e, sc.t, more, stack, tour.agenda, below, pushed, paths);
    ThreadAdded(e, sc.t, more, threads, tour.threads, Thread(x, stack[|stack| - 1].frame), Top(tour).value);
  }

  lemma ThreadAdded(e: RegexEngine, t: Subject, frames: seq<Captures>, threads: seq<Thread>, paths: seq<Path>, thread: Thread, p: Path)
    requires t.Valid() && ThreadsCarry(e, t, frames, threads, paths)
    requires thread.state == p.state && Carries(e, t, frames, thread.frame, p)
    ensures ThreadsCarry(e, t, frames, threads + [thread], paths + [p])
  {
  }

  lemma ExpandLed(e: RegexEngine, sc: Scene, visited: set<nat>, tour: Tour, exhausted: bool, paths: seq<Option<Path>>, cut: bool)
    requires Led(e, sc, visited, tour, exhausted) && tour.agenda != [] && Unvisited(tour, Top(tour))
    requires Moves(sc, Top(tour).value, paths) && (!cut ==> AllMoves(sc, Top(tour).value, paths))
    ensures Led(e, sc, visited + {Top(tour).value.state}, Met(sc.g, tour, paths), exhausted || cut)
  {
    MeetSound(sc, tour, paths);
    if !exhausted && !cut {
      MeetFull(sc, tour, paths);
    }
  }

  lemma ExpandSupplied(e: RegexEngine, sc: Scene, base: nat, visited: set<nat>, frames: seq<Captures>, tour: Tour, exhausted: bool,
                       more: seq<Captures>, cut: bool)
    requires Led(e, sc, visited, tour, exhausted) && tour.agenda != [] && Unvisited(tour, Top(tour))
    requires Supplied(e, sc, base, visited, frames, exhausted) && |more| <= FrameLimit(2 * e.numCaptures)
    requires cut ==> more == frames && Clones(e.states, Top(tour).value.state) && |frames| >= FrameLimit(2 * e.numCaptures)
    requires !cut ==> |more| == |frames| + if Clones(e.states, Top(tour).value.state) then 1 else 0
    ensures Supplied(e, sc, base, visited + {Top(tour).value.state}, more, exhausted || cut)
  {
    if !exhausted {
      MeetClones(e.states, visited, Top(tour).value.state);
      if cut {
        RefusedForNoRoom(e, sc, base, frames, tour);
      }
    }
  }

  lemma StackReplaced(e: RegexEngine, t: Subject, frames: seq<Captures>, stack: seq<StackEntry>, agenda: seq<Option<Path>>, below: nat,
                      pushed: seq<StackEntry>, paths: seq<Option<Path>>)
    requires t.Valid() && stack != [] && StackCarries(e, t, frames, stack, agenda, below) && StackCarries(e, t, frames, pushed, paths, 0)
    ensures StackCarries(e, t, frames, stack[..|stack| - 1] + pushed, agenda[..|agenda| - 1] + paths, below)
  {
    var n := |stack| - 1;
    var after, agenda' := stack[..n] + pushed, agenda[..|agenda| - 1] + paths;
    forall k | 0 <= k < |after|
      ensures EntryCarries(e, t, frames, after[k], agenda'[below + k])
    {
      if k < n {
        assert after[k] == stack[k] && agenda'[below + k] == agenda[below + k];
      } else {
        assert after[k] == pushed[k - n] && agenda'[below + k] == paths[0 + (k - n)];
      }
    }
  }

  ghost function VisitedBy(ctx: MatchContext, epoch: nat): set<nat>
    reads ctx
  {
    Stamped(ctx.visitedStates, epoch)
  }

  /** The context fits the engine. */
  ghost predicate Bound(e: RegexEngine, ctx: MatchContext, epoch: nat)
    reads ctx
  {
    && ctx.Valid() && |ctx.visitedStates| == |e.states| && epoch <= ctx.epochCounter
    && ctx.captureFrameSlots == 2 * e.numCaptures
  }

  /** The path with one more state, unless the pointer is null. */
  ghost function Onto(p: Path, next: Ptr): Option<Path>
  {
    if next.To? then Some(Then(p, next.id)) else None
  }

  /** A capture state has one move, which leaves its record in the frame. */
  lemma CapturePushed(e: RegexEngine, sc: Scene, frames: seq<Captures>, frame: nat, p: Path, slot: nat, pos: nat)
    requires sc.g == e.states && sc.Valid() && sc.Here(p) && Carries(e, sc.t, frames, frame, p) && Clones(e.states, p.state)
    requires pos == sc.t.offsets[sc.i]
    requires slot == SlotOf(e.states[p.state].tag)
    ensures var next := e.states[p.state].next;
            var more := frames + [SetSlot(frames[frame], slot, pos)];
            Pushed(e, sc, more, p, [StackEntry(next, |frames|)], [Onto(p, next)], false)
  {
  }

  /** The pushed entries of any other state share its frame. */
  lemma {:induction false} PlainPushed(e: RegexEngine, sc: Scene, frames: seq<Captures>, frame: nat, p: Path, pushed: seq<StackEntry>, paths: seq<Option<Path>>)
    requires sc.g == e.states && sc.Valid() && sc.Here(p) && Carries(e, sc.t, frames, frame, p) && !Clones(e.states, p.state)
    requires var st := e.states[p.state];
             if st.tag.Split? then
               pushed == [StackEntry(st.alt, frame), StackEntry(st.next, frame)] && paths == [Onto(p, st.alt), Onto(p, st.next)]
             else if !st.tag.IsTerminal() && RegexSemantics.Passes(st.tag, FlagsAt(sc.t, sc.i)) then
               pushed == [StackEntry(st.next, frame)] && paths == [Onto(p, st.next)]
             else pushed == [] && paths == []
    ensures Pushed(e, sc, frames, p, pushed, paths, false)
  {
    var st := e.states[p.state];
    if st.tag.Split? {
      SplitPaths(sc, p, st.next, st.alt);
    }
  }

  lemma SplitPaths(sc: Scene, p: Path, next: Ptr, alt: Ptr)
    requires sc.Valid() && sc.Here(p) && sc.g[p.state] == State(Split, next, alt)
    ensures AllMoves(sc, p, [Onto(p, alt), Onto(p, next)])
  {
    if next.To? && alt.To? && next != alt {
      var a, b := Then(p, next.id), Then(p, alt.id);
      assert PartsAt(sc.g, a, b, p, next.id, alt.id);
    }
    var paths := [Onto(p, alt), Onto(p, next)];
    assert paths[0] == Onto(p, alt) && paths[1] == Onto(p, next);
  }

  /** The slot that a capture state writes. */
  function SlotOf(tag: Label): nat
    requires tag.CaptureOpen? || tag.CaptureClose?
  {
    if tag.CaptureOpen? then 2 * tag.id else 2 * tag.id + 1
  }

  lemma {:induction false} CaptureVisited(e: RegexEngine, sc: Scene, base: nat, visited: set<nat>, frames: seq<Captures>, threads: seq<Thread>,
                       stack: seq<StackEntry>, tour: Tour, below: nat, exhausted: bool)
    requires Touring(e, sc, base, visited, frames, threads, stack, tour, below, exhausted) && stack != []
    requires |frames| < FrameLimit(2 * e.numCaptures) && stack[|stack| - 1].state.To?
    requires var x := stack[|stack| - 1].state.id; x !in visited && Clones(e.states, x)
    ensures tour.agenda != [] && Top(tour).Some? && stack[|stack| - 1].frame < |frames|
    ensures var x, frame := stack[|stack| - 1].state.id, stack[|stack| - 1].frame;
            var next := e.states[x].next;
            var more := frames + [SetSlot(frames[frame], SlotOf(e.states[x].tag), sc.t.offsets[sc.i])];
            Touring(e, sc, base, visited + {x}, more, threads, stack[..|stack| - 1] + [StackEntry(next, |frames|)],
                    Met(sc.g, tour, [Onto(Top(tour).value, next)]), below, exhausted)
  {
    var x, frame := stack[|stack| - 1].state.id, stack[|stack| - 1].frame;
    TopEntry(e, sc, base, visited, frames, threads, stack, tour, below, exhausted);
    var p, next := Top(tour).value, e.states[x].next;
    CapturePushed(e, sc, frames, frame, p, SlotOf(e.states[x].tag), sc.t.offsets[sc.i]);
    var more := frames + [SetSlot(frames[frame], SlotOf(e.states[x].tag), sc.t.offsets[sc.i])];
    Expand(e, sc, base, visited, frames, threads, stack, tour, below, exhausted, more, [StackEntry(next, |frames|)], [Onto(p, next)], false);
  }

  lemma {:induction false} CaptureRefused(e: RegexEngine, sc: Scene, base: nat, visited: set<nat>, frames: seq<Captures>, threads: seq<Thread>,
                       stack: seq<StackEntry>, tour: Tour, below: nat, exhausted: bool)
    requires Touring(e, sc, base, visited, frames, threads, stack, tour, below, exhausted) && stack != []
    requires |frames| >= FrameLimit(2 * e.numCaptures) && stack[|stack| - 1].state.To?
    requires var x := stack[|stack| - 1].state.id; x !in visited && Clones(e.states, x)
    ensures tour.agenda != [] && Top(tour).Some?
    ensures Touring(e, sc, base, visited + {stack[|stack| - 1].state.id}, frames, threads, stack[..|stack| - 1],
                    Met(sc.g, tour, []), below, true)
  {
    TopEntry(e, sc, base, visited, frames, threads, stack, tour, below, exhausted);
    Expand(e, sc, base, visited, frames, threads, stack, tour, below, exhausted, frames, [], [], true);
    assert stack[..|stack| - 1] + [] == stack[..|stack| - 1];
  }

  /** Visits a new capture state: the frame is cloned, and the clone records the position. */
  /** A copy of a frame with one slot written, if the arena has room for it. */
  method CloneAndWrite(ctx: MatchContext, frame: nat, slot: nat, pos: nat) returns (next: Option<nat>)
    requires frame < |ctx.captureFrames|
    modifies ctx`captureFrames
    ensures old(ctx.OutOfFrames()) ==> next == None && ctx.captureFrames == old(ctx.captureFrames)
    ensures !old(ctx.OutOfFrames()) ==>
              next == Some(|old(ctx.captureFrames)|) &&
              ctx.captureFrames == old(ctx.captureFrames) + [SetSlot(old(ctx.captureFrames)[frame], slot, pos)]
  {
    next := ctx.CloneCaptureFrame(frame);
    if next.Some? {
      ctx.WriteSlot(next.value, slot, pos);
    }
  }

  method VisitCapture(e: RegexEngine, ctx: MatchContext, threads: seq<Thread>, stack: seq<StackEntry>, pos: nat,
                      ghost visited: set<nat>, ghost sc: Scene, ghost base: nat, ghost tour: Tour, ghost below: nat, ghost exhausted: bool)
      returns (stack': seq<StackEntry>, ghost tour': Tour, ghost exhausted': bool)
    requires Touring(e, sc, base, visited, ctx.captureFrames, threads, stack, tour, below, exhausted)
    requires stack != [] && stack[|stack| - 1].state.To? && pos == sc.t.offsets[sc.i] && ctx.captureFrameSlots == 2 * e.numCaptures
    requires var x := stack[|stack| - 1].state.id; x !in visited && Clones(e.states, x)
    modifies ctx`captureFrames
    ensures Touring(e, sc, base, visited + {stack[|stack| - 1].state.id}, ctx.captureFrames, threads, stack', tour', below, exhausted')
    ensures old(ctx.captureFrames) <= ctx.captureFrames
    ensures |tour'.agenda| >= below && tour'.agenda[..below] == tour.agenda[..below]
    ensures exhausted ==> exhausted'
  {
    var x, frame := stack[|stack| - 1].state.id, stack[|stack| - 1].frame;
    ghost var frames := ctx.captureFrames;
    TopFrame(e, sc.t, frames, stack, tour.agenda, below);
    var st := e.states[x];
    stack', exhausted' := stack[..|stack| - 1], exhausted;
    var next := CloneAndWrite(ctx, frame, SlotOf(st.tag), pos);
    if next == None {
      CaptureRefused(e, sc, base, visited, frames, threads, stack, tour, below, exhausted);
      tour', exhausted' := Met(sc.g, tour, []), true;
      return;
    }
    CaptureVisited(e, sc, base, visited, frames, threads, stack, tour, below, exhausted);
    stack' := stack' + [StackEntry(st.next, next.value)];
    tour' := Met(sc.g, tour, [Onto(Top(tour).value, st.next)]);
  }

  /** Visits any other new state: follows its moves, or makes it a thread. */
  /** Where a state that is no capture state leads, with the frame it was reached with. */
  method PlainEntries(e: RegexEngine, x: nat, frame: nat, f: Flags, ghost sc: Scene, ghost frames: seq<Captures>, ghost p: Path)
      returns (pushed: seq<StackEntry>, ghost paths: seq<Option<Path>>)
    requires sc.g == e.states && sc.Valid() && sc.Here(p) && Carries(e, sc.t, frames, frame, p) && !Clones(e.states, p.state)
    requires x == p.state && x < |e.states| && f == FlagsAt(sc.t, sc.i)
    ensures Pushed(e, sc, frames, p, pushed, paths, false)
  {
    var st := e.states[x];
    pushed, paths := [], [];
    if st.tag.Split? {
      pushed, paths := [StackEntry(st.alt, frame), StackEntry(st.next, frame)], [Onto(p, st.alt), Onto(p, st.next)];
    } else if !st.tag.IsTerminal() && RegexSemantics.Passes(st.tag, f) {
      pushed, paths := [StackEntry(st.next, frame)], [Onto(p, st.next)];
    }
    PlainPushed(e, sc, frames, frame, p, pushed, paths);
  }

  method VisitPlain(e: RegexEngine, ctx: MatchContext, threads: seq<Thread>, stack: seq<StackEntry>, f: Flags,
                    ghost visited: set<nat>, ghost sc: Scene, ghost base: nat, ghost tour: Tour, ghost below: nat, ghost exhausted: bool)
      returns (threads': seq<Thread>, stack': seq<StackEntry>, ghost tour': Tour)
    requires Touring(e, sc, base, visited, ctx.captureFrames, threads, stack, tour, below, exhausted)
    requires stack != [] && stack[|stack| - 1].state.To? && f == FlagsAt(sc.t, sc.i)
    requires var x := stack[|stack| - 1].state.id; x < |e.states| && x !in visited && !Clones(e.states, x)
    ensures Touring(e, sc, base, visited + {stack[|stack| - 1].state.id}, ctx.captureFrames, threads', stack', tour', below, exhausted)
    ensures |tour'.agenda| >= below && tour'.agenda[..below] == tour.agenda[..below]
  {
    var x, frame := stack[|stack| - 1].state.id, stack[|stack| - 1].frame;
    TopEntry(e, sc, base, visited, ctx.captureFrames, threads, stack, tour, below, exhausted);
    var pushed: seq<StackEntry>;
    ghost var paths: seq<Option<Path>>;
    pushed, paths := PlainEntries(e, x, frame, f, sc, ctx.captureFrames, Top(tour).value);
    threads' := if e.states[x].tag.IsTerminal() then threads + [Thread(x, frame)] else threads;
    Expand(e, sc, base, visited, ctx.captureFrames, threads, stack, tour, below, exhausted, ctx.captureFrames, pushed, paths, false);
    stack' := stack[..|stack| - 1] + pushed;
    tour' := Met(sc.g, tour, paths);
  }

  lemma MarkVisited(seen: seq<nat>, x: nat, epoch: nat)
    requires x < |seen| && seen[x] != epoch
    ensures Stamped(seen[x := epoch], epoch) == Stamped(seen, epoch) + {x}
    ensures Unstamped(seen[x := epoch], epoch) < Unstamped(seen, epoch)
  {
    assert x in Unstamped(seen, epoch);
  }

  /** Marks the new state on top of the stack and visits it. */
  method Visit(e: RegexEngine, ctx: MatchContext, threads: seq<Thread>, stack: seq<StackEntry>, pos: nat, epoch: nat, f: Flags,
               ghost sc: Scene, ghost base: nat, ghost tour: Tour, ghost below: nat, ghost exhausted: bool)
      returns (threads': seq<Thread>, stack': seq<StackEntry>, ghost tour': Tour, ghost exhausted': bool)
    requires Bound(e, ctx, epoch)
    requires Touring(e, sc, base, VisitedBy(ctx, epoch), ctx.captureFrames, threads, stack, tour, below, exhausted)
    requires f == FlagsAt(sc.t, sc.i) && pos == sc.t.offsets[sc.i]
    requires stack != [] && stack[|stack| - 1].state.To? && stack[|stack| - 1].state.id < |e.states|
    requires ctx.visitedStates[stack[|stack| - 1].state.id] != epoch
    modifies ctx`visitedStates, ctx`captureFrames
    ensures Bound(e, ctx, epoch)
    ensures Touring(e, sc, base, VisitedBy(ctx, epoch), ctx.captureFrames, threads', stack', tour', below, exhausted')
    ensures old(ctx.captureFrames) <= ctx.captureFrames
    ensures |tour'.agenda| >= below && tour'.agenda[..below] == tour.agenda[..below]
    ensures exhausted ==> exhausted'
    ensures Unstamped(ctx.visitedStates, epoch) < old(Unstamped(ctx.visitedStates, epoch))
  {
    var x := stack[|stack| - 1].state.id;
    ghost var visited := VisitedBy(ctx, epoch);
    MarkVisited(ctx.visitedStates, x, epoch);
    ctx.visitedStates := ctx.visitedStates[x := epoch];
    threads', exhausted' := threads, exhausted;
    if e.states[x].tag.CaptureOpen? || e.states[x].tag.CaptureClose? {
      stack', tour', exhausted' := VisitCapture(e, ctx, threads, stack, pos, visited, sc, base, tour, below, exhausted);
    } else {
      threads', stack', tour' := VisitPlain(e, ctx, threads, stack, f, visited, sc, base, tour, below, exhausted);
    }
  }

  /** Takes the entry on top of the stack, which is passed over or visited. */
  method TakeTop(e: RegexEngine, ctx: MatchContext, threads: seq<Thread>, stack: seq<StackEntry>, pos: nat, epoch: nat, f: Flags,
                 ghost sc: Scene, ghost base: nat, ghost tour: Tour, ghost below: nat, ghost exhausted: bool)
      returns (threads': seq<Thread>, stack': seq<StackEntry>, ghost tour': Tour, ghost exhausted': bool)
    requires Bound(e, ctx, epoch) && stack != []
    requires Touring(e, sc, base, VisitedBy(ctx, epoch), ctx.captureFrames, threads, stack, tour, below, exhausted)
    requires f == FlagsAt(sc.t, sc.i) && pos == sc.t.offsets[sc.i]
    modifies ctx`visitedStates, ctx`captureFrames
    ensures Bound(e, ctx, epoch)
    ensures Touring(e, sc, base, VisitedBy(ctx, epoch), ctx.captureFrames, threads', stack', tour', below, exhausted')
    ensures old(ctx.captureFrames) <= ctx.captureFrames
    ensures |tour'.agenda| >= below && tour'.agenda[..below] == tour.agenda[..below]
    ensures exhausted ==> exhausted'
    ensures Unstamped(ctx.visitedStates, epoch) < old(Unstamped(ctx.visitedStates, epoch)) ||
            (ctx.visitedStates == old(ctx.visitedStates) && |stack'| < |stack|)
  {
    var top := stack[|stack| - 1];
    if top.state.To? {
      TopEntry(e, sc, base, VisitedBy(ctx, epoch), ctx.captureFrames, threads, stack, tour, below, exhausted);
    }
    if top.state.Null? || ctx.visitedStates[top.state.id] == epoch {
      PopSeen(e, sc, base, VisitedBy(ctx, epoch), ctx.captureFrames, threads, stack, tour, below, exhausted);
      threads', stack', tour', exhausted' := threads, stack[..|stack| - 1], Dropped(tour), exhausted;
    } else {
      threads', stack', tour', exhausted' := Visit(e, ctx, threads, stack, pos, epoch, f, sc, base, tour, below, exhausted);
    }
  }

  /** Adds a thread for every terminal state reachable from `state`, depth first. */
  method AddStateCapturing(e: RegexEngine, ctx: MatchContext, threads: seq<Thread>, state: Ptr, frame: nat, pos: nat, epoch: nat, f: Flags,
                           ghost sc: Scene, ghost base: nat, ghost tour: Tour, ghost below: nat, ghost exhausted: bool)
      returns (result: seq<Thread>, ghost tour': Tour, ghost exhausted': bool)
    requires Bound(e, ctx, epoch)
    requires Touring(e, sc, base, VisitedBy(ctx, epoch), ctx.captureFrames, threads, [StackEntry(state, frame)], tour, below, exhausted)
    requires f == FlagsAt(sc.t, sc.i) && pos == sc.t.offsets[sc.i]
    modifies ctx`visitedStates, ctx`captureFrames
    ensures Bound(e, ctx, epoch)
    ensures Touring(e, sc, base, VisitedBy(ctx, epoch), ctx.captureFrames, result, [], tour', below, exhausted')
    ensures tour'.agenda == tour.agenda[..below]
    ensures old(ctx.captureFrames) <= ctx.captureFrames
    ensures exhausted ==> exhausted'
  {
    var stack := [StackEntry(state, frame)];
    result, tour', exhausted' := threads, tour, exhausted;
    while stack != []
      invariant Bound(e, ctx, epoch)
      invariant Touring(e, sc, base, VisitedBy(ctx, epoch), ctx.captureFrames, result, stack, tour', below, exhausted')
      invariant |tour'.agenda| >= below && tour'.agenda[..below] == tour.agenda[..below]
      invariant old(ctx.captureFrames) <= ctx.captureFrames
      invariant exhausted ==> exhausted'
      decreases Unstamped(ctx.visitedStates, epoch), |stack|
    {
      result, stack, tour', exhausted' := TakeTop(e, ctx, result, stack, pos, epoch, f, sc, base, tour', below, exhausted');
    }
  }

  // ---------------------------------------------------------------------
  // One step
  // ---------------------------------------------------------------------

  /** The threads between two runes: each has recorded its path, and until a clone is refused they are the preferred ones to all terminal states. */
  ghost predicate Standing(e: RegexEngine, t: Subject, i: nat, frames: seq<Captures>, threads: seq<Thread>, paths: seq<Path>, exhausted: bool)
    requires t.Valid() && i <= |t.runes|
  {
    && ThreadsCarry(e, t, frames, threads, paths)
    && Lineup(e.states, t, e.startState, i, paths, !exhausted)
    && e.numCaptures > 0 && |frames| <= FrameLimit(2 * e.numCaptures)
    && (if exhausted then !Room(e, t) && |frames| == FrameLimit(2 * e.numCaptures) else |frames| == FramesAfter(e.states, t, e.startState, i + 1))
  }

  /** The scene of boundary `i` after the given threads. */
  ghost function SceneOf(e: RegexEngine, t: Subject, i: nat, paths: seq<Path>): Scene
  {
    Scene(e.states, t, e.startState, i, paths)
  }

  /** A tour that has come to its end leaves threads that stand at its boundary. */
  lemma TourStands(e: RegexEngine, sc: Scene, base: nat, visited: set<nat>, frames: seq<Captures>, threads: seq<Thread>, tour: Tour, exhausted: bool)
    requires Touring(e, sc, base, visited, frames, threads, [], tour, 0, exhausted)
    ensures Standing(e, sc.t, sc.i, frames, threads, tour.threads, exhausted)
  {
    assert tour.agenda == [];
    TourDone(sc, tour, !exhausted);
    if !exhausted {
      AllClonesMet(sc, tour);
    }
  }

  /** The tour of a new boundary begins with nothing met. */
  lemma TourBegins(e: RegexEngine, sc: Scene, base: nat, frames: seq<Captures>, stack: seq<StackEntry>, exhausted: bool)
    requires sc.g == e.states && sc.start == e.startState && sc.Valid() && e.numCaptures > 0
    requires |frames| <= FrameLimit(2 * e.numCaptures)
    requires if exhausted then !Room(e, sc.t) && |frames| == FrameLimit(2 * e.numCaptures)
             else sc.Known() && base == |frames| == FramesAfter(e.states, sc.t, e.startState, sc.i)
    requires |stack| <= |Opening(sc).agenda| && StackCarries(e, sc.t, frames, stack, Opening(sc).agenda, |Opening(sc).agenda| - |stack|)
    ensures Touring(e, sc, base, {}, frames, [], stack, Opening(sc), |Opening(sc).agenda| - |stack|, exhausted)
  {
    OpeningSound(sc);
    assert MetClones(e.states, {}) == {};
  }

  lemma ThreadRecord(e: RegexEngine, t: Subject, frames: seq<Captures>, more: seq<Captures>, threads: seq<Thread>, paths: seq<Path>, k: nat)
    requires t.Valid() && ThreadsCarry(e, t, frames, threads, paths) && frames <= more && k < |threads|
    ensures threads[k].state == paths[k].state && Carries(e, t, more, threads[k].frame, paths[k])
  {
  }

  /** Where a step stands after `k` threads. */
  ghost predicate Stepping(e: RegexEngine, ctx: MatchContext, sc: Scene, base: nat, epoch: nat, k: nat, next: seq<Thread>, tour: Tour, exhausted: bool)
    reads ctx
  {
    && Bound(e, ctx, epoch)
    && sc.Valid() && 0 < sc.i && k <= |sc.prev| && tour.agenda == Waiting(sc, k)
    && Touring(e, sc, base, VisitedBy(ctx, epoch), ctx.captureFrames, next, [], tour, |tour.agenda|, exhausted)
  }

  /** The scene after threads that stand. */
  lemma {:induction false} SceneStands(e: RegexEngine, t: Subject, i: nat, frames: seq<Captures>, threads: seq<Thread>, paths: seq<Path>, exhausted: bool)
    requires e.Ready() && t.Valid() && i < |t.runes| && Standing(e, t, i, frames, threads, paths, exhausted)
    ensures var sc := SceneOf(e, t, i + 1, paths); sc.Valid() && (!exhausted ==> sc.Known())
    ensures e.numCaptures > 0 && |frames| <= FrameLimit(2 * e.numCaptures)
    ensures if exhausted then !Room(e, t) && |frames| == FrameLimit(2 * e.numCaptures) else |frames| == FramesAfter(e.states, t, e.startState, i + 1)
  {
  }

  /** A step begins where the threads stand. */
  lemma {:induction false} StepBegins(e: RegexEngine, ctx: MatchContext, t: Subject, i: nat, epoch: nat, threads: seq<Thread>, paths: seq<Path>, exhausted: bool)
      returns (tour: Tour)
    requires e.Ready() && t.Valid() && i < |t.runes|
    requires Bound(e, ctx, epoch) && VisitedBy(ctx, epoch) == {}
    requires Standing(e, t, i, ctx.captureFrames, threads, paths, exhausted)
    ensures Stepping(e, ctx, SceneOf(e, t, i + 1, paths), |ctx.captureFrames|, epoch, 0, [], tour, exhausted)
  {
    var sc := SceneOf(e, t, i + 1, paths);
    SceneStands(e, t, i, ctx.captureFrames, threads, paths, exhausted);
    tour := Opening(sc);
    TourBegins(e, sc, |ctx.captureFrames|, ctx.captureFrames, [], exhausted);
    assert tour.agenda == Waiting(sc, 0);
  }

  /** The root of the next thread, as an entry with the thread's frame. */
  lemma {:induction false} NextRoot(e: RegexEngine, sc: Scene, base: nat, visited: set<nat>, frames: seq<Captures>, next: seq<Thread>, tour: Tour,
                 exhausted: bool, k: nat, frame: nat)
    requires Touring(e, sc, base, visited, frames, next, [], tour, |tour.agenda|, exhausted)
    requires 0 < sc.i && k < |sc.prev| && tour.agenda == Waiting(sc, k) && Consumes(sc, sc.prev[k])
    requires Carries(e, sc.t, frames, frame, sc.prev[k])
    ensures var z := sc.g[sc.prev[k].state].next;
            Touring(e, sc, base, visited, frames, next, [StackEntry(z, frame)], tour, |Waiting(sc, k + 1)|, exhausted)
    ensures tour.agenda[..|Waiting(sc, k + 1)|] == Waiting(sc, k + 1)
  {
    var p := Then(sc.prev[k], sc.g[sc.prev[k].state].next.id);
    assert tour.agenda == Waiting(sc, k + 1) + [Some(p)];
    assert Replay(e.states, sc.t, Unset(e.numCaptures), p) == Replay(e.states, sc.t, Unset(e.numCaptures), sc.prev[k]);
  }

  /** A thread that consumes the rune takes its captures to the next state; any other ends. */
  method StepThread(e: RegexEngine, ctx: MatchContext, next: seq<Thread>, thread: Thread, rune: Rune, pos: nat, epoch: nat, f: Flags,
                    ghost sc: Scene, ghost base: nat, ghost k: nat, ghost tour: Tour, ghost exhausted: bool)
      returns (result: seq<Thread>, ghost tour': Tour, ghost exhausted': bool)
    requires e.Ready() && Stepping(e, ctx, sc, base, epoch, k, next, tour, exhausted) && k < |sc.prev|
    requires sc.t.classes == e.classes && rune == sc.t.runes[sc.i - 1] && pos == sc.t.offsets[sc.i] && f == FlagsAt(sc.t, sc.i)
    requires thread.state == sc.prev[k].state && Carries(e, sc.t, ctx.captureFrames, thread.frame, sc.prev[k])
    modifies ctx`visitedStates, ctx`captureFrames
    ensures Stepping(e, ctx, sc, base, epoch, k + 1, result, tour', exhausted')
    ensures old(ctx.captureFrames) <= ctx.captureFrames
    ensures exhausted ==> exhausted'
  {
    result, tour', exhausted' := next, tour, exhausted;
    assert thread.state < |e.states|;
    e.ConsumesDecides(thread.state, rune);
    if e.Consumes(thread.state, rune) {
      NextRoot(e, sc, base, VisitedBy(ctx, epoch), ctx.captureFrames, next, tour, exhausted, k, thread.frame);
      result, tour', exhausted' := AddStateCapturing(e, ctx, next, e.states[thread.state].next, thread.frame, pos, epoch, f,
                                                     sc, base, tour, |Waiting(sc, k + 1)|, exhausted);
    } else {
      assert Waiting(sc, k) == Waiting(sc, k + 1) + [];
    }
  }

  /** One rune: every thread that consumes it moves on. */
  method StepCapturing(e: RegexEngine, ctx: MatchContext, current: seq<Thread>, rune: Rune, pos: nat, f: Flags,
                       ghost t: Subject, ghost i: nat, ghost paths: seq<Path>, ghost exhausted: bool)
      returns (next: seq<Thread>, ghost paths': seq<Path>, ghost exhausted': bool)
    requires e.Ready() && t.Valid() && t.classes == e.classes && Bound(e, ctx, 0)
    requires i < |t.runes| && rune == t.runes[i] && pos == t.offsets[i + 1] && f == FlagsAt(t, i + 1)
    requires Standing(e, t, i, ctx.captureFrames, current, paths, exhausted)
    modifies ctx
    ensures Bound(e, ctx, 0)
    ensures Standing(e, t, i + 1, ctx.captureFrames, next, paths', exhausted')
    ensures old(ctx.captureFrames) <= ctx.captureFrames
    ensures exhausted ==> exhausted'
  {
    var epoch;
    ghost var sc, tour := SceneOf(e, t, i + 1, paths), Tour(map[], [], []);
    epoch, tour := OpenStep(e, ctx, current, t, i, paths, exhausted);
    next, tour, exhausted' := StepThreads(e, ctx, current, rune, pos, epoch, f, sc, tour, exhausted);
    StepEnds(e, ctx, sc, |old(ctx.captureFrames)|, epoch, next, tour, exhausted');
    paths' := tour.threads;
  }

  /** A new boundary, with no state visited yet. */
  method OpenStep(e: RegexEngine, ctx: MatchContext, current: seq<Thread>,
                  ghost t: Subject, ghost i: nat, ghost paths: seq<Path>, ghost exhausted: bool)
      returns (epoch: nat, ghost tour: Tour)
    requires e.Ready() && t.Valid() && Bound(e, ctx, 0) && i < |t.runes|
    requires Standing(e, t, i, ctx.captureFrames, current, paths, exhausted)
    modifies ctx
    ensures ctx.captureFrames == old(ctx.captureFrames)
    ensures Stepping(e, ctx, SceneOf(e, t, i + 1, paths), |ctx.captureFrames|, epoch, 0, [], tour, exhausted)
  {
    epoch := ctx.AdvanceEpoch();
    tour := StepBegins(e, ctx, t, i, epoch, current, paths, exhausted);
  }

  lemma StepEnds(e: RegexEngine, ctx: MatchContext, sc: Scene, base: nat, epoch: nat, next: seq<Thread>, tour: Tour, exhausted: bool)
    requires 0 < sc.i && sc.Valid() && Stepping(e, ctx, sc, base, epoch, |sc.prev|, next, tour, exhausted)
    ensures Standing(e, sc.t, sc.i, ctx.captureFrames, next, tour.threads, exhausted)
  {
    assert tour.agenda == [];
    TourStands(e, sc, base, VisitedBy(ctx, epoch), ctx.captureFrames, next, tour, exhausted);
  }

  /** The threads in their order. */
  method StepThreads(e: RegexEngine, ctx: MatchContext, current: seq<Thread>, rune: Rune, pos: nat, epoch: nat, f: Flags,
                     ghost sc: Scene, ghost opening: Tour, ghost exhausted: bool)
      returns (next: seq<Thread>, ghost tour: Tour, ghost exhausted': bool)
    requires e.Ready() && Stepping(e, ctx, sc, |ctx.captureFrames|, epoch, 0, [], opening, exhausted)
    requires sc.t.classes == e.classes && rune == sc.t.runes[sc.i - 1] && pos == sc.t.offsets[sc.i] && f == FlagsAt(sc.t, sc.i)
    requires ThreadsCarry(e, sc.t, ctx.captureFrames, current, sc.prev)
    modifies ctx`visitedStates, ctx`captureFrames
    ensures Stepping(e, ctx, sc, |old(ctx.captureFrames)|, epoch, |sc.prev|, next, tour, exhausted')
    ensures old(ctx.captureFrames) <= ctx.captureFrames
    ensures exhausted ==> exhausted'
  {
    next, tour, exhausted' := [], opening, exhausted;
    for k := 0 to |current|
      invariant Stepping(e, ctx, sc, |old(ctx.captureFrames)|, epoch, k, next, tour, exhausted')
      invariant old(ctx.captureFrames) <= ctx.captureFrames
      invariant exhausted ==> exhausted'
    {
      ThreadRecord(e, sc.t, old(ctx.captureFrames), ctx.captureFrames, current, sc.prev, k);
      next, tour, exhausted' := StepThread(e, ctx, next, current[k], rune, pos, epoch, f, sc, |old(ctx.captureFrames)|, k, tour, exhausted');
    }
  }

  /** The threads at boundary 0. */
  method StartCapturing(e: RegexEngine, ctx: MatchContext, frame: nat, f: Flags, ghost t: Subject)
      returns (threads: seq<Thread>, ghost paths: seq<Path>, ghost exhausted: bool)
    requires e.Ready() && t.Valid() && Bound(e, ctx, 0) && f == FlagsAt(t, 0) && t.offsets[0] == 0
    requires ctx.captureFrames == [Unset(e.numCaptures)] && frame == 0
    requires e.numCaptures > 0 && 1 <= FrameLimit(2 * e.numCaptures)
    modifies ctx
    ensures Bound(e, ctx, 0)
    ensures Standing(e, t, 0, ctx.captureFrames, threads, paths, exhausted)
    ensures old(ctx.captureFrames) <= ctx.captureFrames
  {
    var epoch := ctx.AdvanceEpoch();
    ghost var sc, tour := SceneOf(e, t, 0, []), Opening(SceneOf(e, t, 0, []));
    TourBegins(e, sc, 1, ctx.captureFrames, [StackEntry(To(e.startState), frame)], false);
    threads, tour, exhausted := AddStateCapturing(e, ctx, [], To(e.startState), frame, 0, epoch, f, sc, 1, tour, 0, false);
    TourStands(e, sc, 1, VisitedBy(ctx, epoch), ctx.captureFrames, threads, tour, exhausted);
    paths := tour.threads;
  }

  // ---------------------------------------------------------------------
  // The matcher
  // ---------------------------------------------------------------------

  /** Some accepting run over the first `j` runes records the captures `d`. */
  ghost predicate AcceptsWith(r: Option<Regex>, t: Subject, j: nat, groups: nat, d: Captures)
    requires t.Valid()
  {
    if r.None? then j == 0 && d == Unset(groups) else Captured(r.value, t, 0, Unset(groups), j, d)
  }

  /** The captures that are reported for a frame. */
  function Spans(d: Captures): seq<Capture>
  {
    seq(|d| / 2, k requires 0 <= k < |d| / 2 => Capture(d[2 * k], d[2 * k + 1]))
  }

  /** The reported length and captures come from one accepting run. */
  ghost predicate Witnessed(e: RegexEngine, t: Subject, len: nat, captures: seq<Capture>)
    requires t.Valid()
  {
    exists j, d :: 0 <= j <= |t.runes| && len == t.offsets[j] && AcceptsWith(e.pattern, t, j, e.numCaptures, d) &&
                   captures == Spans(d)
  }

  /** They come from the run of that length that an ideal backtracking matcher prefers. */
  ghost predicate Prioritized(e: RegexEngine, t: Subject, len: nat, captures: seq<Capture>)
    requires t.Valid()
  {
    exists j, p :: 0 <= j <= |t.runes| && len == t.offsets[j] && Preferred(e.states, t, e.startState, 0, j, p) &&
                   captures == Spans(Replay(e.states, t, Unset(e.numCaptures), p))
  }

  /** A path to the accept state is the record of an accepting run. */
  lemma {:induction false} AcceptTracked(e: RegexEngine, t: Subject, p: Path)
    requires e.Ready() && t.Valid() && IsPath(e.states, t, e.startState, p) && p.state == e.acceptState
    ensures At(e.states, p) <= |t.runes|
    ensures AcceptsWith(e.pattern, t, At(e.states, p), e.numCaptures, Replay(e.states, t, Unset(e.numCaptures), p))
    ensures PatternMatches(e.pattern, t, 0, At(e.states, p))
  {
    var i, d := At(e.states, p), Replay(e.states, t, Unset(e.numCaptures), p);
    PathInText(e.states, t, e.startState, p);
    PathReaches(e.states, t, e.startState, Unset(e.numCaptures), p);
    var x, y := Config(e.startState, 0, Unset(e.numCaptures)), Config(0, i, d);
    var n: nat :| Run(e.states, t, n, x, y);
    if e.pattern.Some? {
      var j, c, m := AcceptingRunMatches(e.states, e.pattern.value, 1, 0, t, n, 0, Unset(e.numCaptures), y);
      assert m == 0;
      CapturedMatches(e.pattern.value, t, 0, Unset(e.numCaptures), i, d);
    } else {
      assert n == 0;
    }
  }

  /** The first thread in the accept state. */
  method CheckAccept(e: RegexEngine, threads: seq<Thread>) returns (index: Option<nat>)
    ensures index == None ==> forall k :: 0 <= k < |threads| ==> threads[k].state != e.acceptState
    ensures index.Some? ==> index.value < |threads| && threads[index.value].state == e.acceptState &&
                            forall k :: 0 <= k < index.value ==> threads[k].state != e.acceptState
  {
    for k := 0 to |threads|
      invariant forall m :: 0 <= m < k ==> threads[m].state != e.acceptState
    {
      if threads[k].state == e.acceptState {
        return Some(k);
      }
    }
    return None;
  }

  /** The best match so far: its frame records a path to it, the preferred one unless a clone was refused. */
  ghost predicate BestSoFar(e: RegexEngine, t: Subject, i: nat, frames: seq<Captures>, best: Option<nat>, bestFrame: Option<nat>,
                            exhausted: bool)
    requires t.Valid() && i <= |t.runes|
  {
    && (best.Some? <==> bestFrame.Some?)
    && (!exhausted ==> e.BestUpTo(t, i, best))
    && (best.Some? ==> bestFrame.value < |frames| && FrameWitness(e, t, best.value, frames[bestFrame.value], exhausted))
  }

  ghost predicate FrameWitness(e: RegexEngine, t: Subject, len: nat, d: Captures, exhausted: bool)
    requires t.Valid()
  {
    exists p :: PathWitness(e, t, len, d, exhausted, p)
  }

  ghost predicate PathWitness(e: RegexEngine, t: Subject, len: nat, d: Captures, exhausted: bool, p: Path)
    requires t.Valid()
  {
    var j := At(e.states, p);
    && IsPath(e.states, t, e.startState, p) && p.state == e.acceptState && j <= |t.runes| && len == t.offsets[j]
    && d == Replay(e.states, t, Unset(e.numCaptures), p)
    && (!exhausted ==> Preferred(e.states, t, e.startState, e.acceptState, j, p))
  }

  /** The accept state has a thread exactly if the pattern matches up to here. */
  lemma {:induction false} AcceptServed(e: RegexEngine, t: Subject, i: nat, paths: seq<Path>)
    requires e.Ready() && t.Valid() && i <= |t.runes| && Lineup(e.states, t, e.startState, i, paths, true)
    ensures PatternMatches(e.pattern, t, 0, i) <==> exists k :: 0 <= k < |paths| && paths[k].state == e.acceptState
  {
    AcceptPath(e.states, t, e.startState, e.pattern, i);
    if p :| IsPath(e.states, t, e.startState, p) && At(e.states, p) == i && p.state == 0 {
      assert Served(e.states, paths, p);
    }
  }

  /** A thread of a full lineup stands for the preferred path. */
  lemma ThreadPreferred(e: RegexEngine, t: Subject, i: nat, paths: seq<Path>, k: nat)
    requires Lineup(e.states, t, e.startState, i, paths, true) && k < |paths|
    requires forall m :: 0 <= m < k ==> paths[m].state != paths[k].state
    ensures Preferred(e.states, t, e.startState, paths[k].state, i, paths[k])
  {
    var g, p := e.states, paths[k];
    forall q | IsPath(g, t, e.startState, q) && Simple(g, q) && q.state == p.state && At(g, q) == i
      ensures NotAfter(g, p, q)
    {
      assert Served(g, paths, q);
      var m :| 0 <= m < |paths| && paths[m].state == q.state && NotAfter(g, paths[m], q);
      if m != k {
        assert CapturePaths.Before(g, paths[k], paths[m]);
        NotAfterTrans(g, p, paths[m], q);
      }
    }
  }

  /** The best match after another boundary. */
  lemma {:induction false} BestNext(e: RegexEngine, t: Subject, i: nat, frames: seq<Captures>, more: seq<Captures>, threads: seq<Thread>, paths: seq<Path>,
                 exhausted: bool, exhausted': bool, best: Option<nat>, bestFrame: Option<nat>, hit: Option<nat>)
    requires e.Ready() && t.Valid() && i <= |t.runes| && Standing(e, t, i, more, threads, paths, exhausted')
    requires frames <= more && (exhausted ==> exhausted')
    requires i > 0 ==> BestSoFar(e, t, i - 1, frames, best, bestFrame, exhausted)
    requires i == 0 ==> best == None && bestFrame == None
    requires hit == None ==> forall k :: 0 <= k < |threads| ==> threads[k].state != e.acceptState
    requires hit.Some? ==> hit.value < |threads| && threads[hit.value].state == e.acceptState &&
                           forall k :: 0 <= k < hit.value ==> threads[k].state != e.acceptState
    ensures BestSoFar(e, t, i, more, if hit.Some? then Some(t.offsets[i]) else best,
                      if hit.Some? then Some(threads[hit.value].frame) else bestFrame, exhausted')
  {
    if !exhausted' {
      AcceptServed(e, t, i, paths);
    }
    if hit.Some? {
      HitWitness(e, t, i, more, threads, paths, exhausted', hit.value);
    } else {
      if best.Some? {
        WitnessKept(e, t, best.value, frames[bestFrame.value], exhausted, exhausted');
      }
      if !exhausted' && best.Some? {
        var b :| 0 <= b <= i - 1 && best.value == t.offsets[b] && PatternMatches(e.pattern, t, 0, b) &&
                 forall j :: b < j <= i - 1 ==> !PatternMatches(e.pattern, t, 0, j);
        assert forall j :: b < j <= i ==> !PatternMatches(e.pattern, t, 0, j);
      }
    }
  }

  lemma WitnessKept(e: RegexEngine, t: Subject, len: nat, d: Captures, exhausted: bool, exhausted': bool)
    requires t.Valid() && FrameWitness(e, t, len, d, exhausted) && (exhausted ==> exhausted')
    ensures FrameWitness(e, t, len, d, exhausted')
  {
    var p :| PathWitness(e, t, len, d, exhausted, p);
    assert PathWitness(e, t, len, d, exhausted', p);
  }

  /** The first thread in the accept state witnesses a match that ends here. */
  lemma {:induction false} HitWitness(e: RegexEngine, t: Subject, i: nat, frames: seq<Captures>, threads: seq<Thread>, paths: seq<Path>, exhausted: bool, hit: nat)
    requires e.Ready() && t.Valid() && i <= |t.runes| && Standing(e, t, i, frames, threads, paths, exhausted)
    requires hit < |threads| && threads[hit].state == e.acceptState && forall k :: 0 <= k < hit ==> threads[k].state != e.acceptState
    ensures threads[hit].frame < |frames| && FrameWitness(e, t, t.offsets[i], frames[threads[hit].frame], exhausted)
    ensures PatternMatches(e.pattern, t, 0, i)
  {
    var p := paths[hit];
    AcceptTracked(e, t, p);
    if !exhausted {
      assert forall m :: 0 <= m < hit ==> paths[m].state == threads[m].state;
      ThreadPreferred(e, t, i, paths, hit);
    }
    assert PathWitness(e, t, t.offsets[i], frames[threads[hit].frame], exhausted, p);
  }

  /** With no thread left, nothing longer can match. */
  lemma {:induction false} FinalBest(e: RegexEngine, t: Subject, i: nat, frames: seq<Captures>, threads: seq<Thread>, paths: seq<Path>,
                  best: Option<nat>, bestFrame: Option<nat>)
    requires e.Ready() && t.Valid() && i <= |t.runes|
    requires Standing(e, t, i, frames, threads, paths, false) && BestSoFar(e, t, i, frames, best, bestFrame, false)
    requires i == |t.runes| || threads == []
    ensures IsLongestPrefix(e.pattern, t, best)
  {
    forall j | i < j <= |t.runes|
      ensures !PatternMatches(e.pattern, t, 0, j)
    {
      AcceptPath(e.states, t, e.startState, e.pattern, j);
      if p :| IsPath(e.states, t, e.startState, p) && At(e.states, p) == j && p.state == 0 {
        assert paths == [];
        NoThreadsNoPaths(e.states, t, e.startState, i, p);
      }
    }
    if best.Some? {
      var b :| 0 <= b <= i && best.value == t.offsets[b] && PatternMatches(e.pattern, t, 0, b) &&
               forall j :: b < j <= i ==> !PatternMatches(e.pattern, t, 0, j);
      assert IsLongest(e.pattern, t, Some(b));
    }
  }

  /** The frames that a run takes: one per clone, as far as the arena goes. */
  ghost function FramesTaken(e: RegexEngine, t: Subject): nat
    requires e.numCaptures > 0
  {
    if Room(e, t) then FramesAfter(e.states, t, e.startState, |t.runes| + 1) else FrameLimit(2 * e.numCaptures)
  }

  /** When the matcher is done, a clone has been refused exactly if there was no room. */
  lemma FramesAtTheEnd(e: RegexEngine, t: Subject, i: nat, frames: seq<Captures>, threads: seq<Thread>, paths: seq<Path>, exhausted: bool)
    requires t.Valid() && i <= |t.runes| && Standing(e, t, i, frames, threads, paths, exhausted)
    requires i == |t.runes| || threads == []
    ensures exhausted <==> !Room(e, t)
    ensures |frames| == FramesTaken(e, t)
  {
    if !exhausted && i < |t.runes| {
      assert paths == [];
      NoThreadsNoClones(e.states, t, e.startState, i, |t.runes| + 1);
    }
  }

  /** The frame arena has room for one clone per capture state and boundary, whatever the automaton reaches. */
  ghost predicate ArenaSuffices(e: RegexEngine, t: Subject)
  {
    2 * e.numCaptures * (2 + (|t.runes| + 1) * |CaptureStates(e.states)|) <= MAX_CAPTURE_FRAME_ENTRIES
  }

  /** The states that clone a frame when they are visited. */
  ghost function CaptureStates(g: Graph): set<nat>
  {
    set k | 0 <= k < |g| && Clones(g, k)
  }

  lemma {:induction false} FramesBounded(g: Graph, t: Subject, start: nat, n: nat)
    ensures FramesAfter(g, t, start, n) <= 1 + n * |CaptureStates(g)|
    decreases n
  {
    if n > 0 {
      FramesBounded(g, t, start, n - 1);
      SubsetCount(ClonedAt(g, t, start, n - 1), CaptureStates(g));
      MulAdd(n - 1, |CaptureStates(g)|);
    }
  }

  lemma SufficientRoom(e: RegexEngine, t: Subject)
    requires ArenaSuffices(e, t)
    ensures Room(e, t)
  {
    if e.numCaptures > 0 {
      var k, slots := |CaptureStates(e.states)|, 2 * e.numCaptures;
      FramesBounded(e.states, t, e.startState, |t.runes| + 1);
      var room := 1 + (|t.runes| + 1) * k;
      FrameLimitMeans(room, slots);
      assert (room + 1) * slots == slots * (2 + (|t.runes| + 1) * k);
    }
  }

  /** Without groups the capture-free matcher runs, and there is nothing to report. */
  lemma {:induction false} NoGroupsWitnessed(e: RegexEngine, t: Subject, len: nat)
    requires e.Ready() && t.Valid() && e.numCaptures == 0 && IsLongestPrefix(e.pattern, t, Some(len))
    ensures Witnessed(e, t, len, [])
  {
    var j :| 0 <= j <= |t.runes| && len == t.offsets[j] && IsLongest(e.pattern, t, Some(j));
    if e.pattern.Some? {
      var d := MatchesCaptured(e.pattern.value, t, 0, Unset(0), j);
      CapturedMatches(e.pattern.value, t, 0, Unset(0), j, d);
      assert AcceptsWith(e.pattern, t, j, 0, d) && [] == Spans(d);
    } else {
      assert AcceptsWith(e.pattern, t, j, 0, Unset(0)) && [] == Spans(Unset(0));
    }
  }

  /** What holds between two runes. */
  ghost predicate Simulating(e: RegexEngine, ctx: MatchContext, t: Subject, i: nat, threads: seq<Thread>, paths: seq<Path>,
                             best: Option<nat>, bestFrame: Option<nat>, exhausted: bool)
    requires t.Valid() && i <= |t.runes|
    reads ctx
  {
    && Bound(e, ctx, 0)
    && Standing(e, t, i, ctx.captureFrames, threads, paths, exhausted)
    && BestSoFar(e, t, i, ctx.captureFrames, best, bestFrame, exhausted)
  }

  /** One rune: the threads move on, and a thread that accepts improves the best match. */
  method Round(e: RegexEngine, ctx: MatchContext, threads: seq<Thread>, rune: Rune, pos: nat, f: Flags,
               best: Option<nat>, bestFrame: Option<nat>, ghost t: Subject, ghost i: nat, ghost paths: seq<Path>, ghost exhausted: bool)
      returns (threads': seq<Thread>, best': Option<nat>, bestFrame': Option<nat>, ghost paths': seq<Path>, ghost exhausted': bool)
    requires e.Ready() && t.Valid() && t.classes == e.classes && i < |t.runes|
    requires Simulating(e, ctx, t, i, threads, paths, best, bestFrame, exhausted)
    requires rune == t.runes[i] && pos == t.offsets[i + 1] && f == FlagsAt(t, i + 1)
    modifies ctx
    ensures Simulating(e, ctx, t, i + 1, threads', paths', best', bestFrame', exhausted')
  {
    ghost var frames := ctx.captureFrames;
    threads', paths', exhausted' := StepCapturing(e, ctx, threads, rune, pos, f, t, i, paths, exhausted);
    var hit := CheckAccept(e, threads');
    BestNext(e, t, i + 1, frames, ctx.captureFrames, threads', paths', exhausted, exhausted', best, bestFrame, hit);
    best', bestFrame' := best, bestFrame;
    if hit.Some? {
      best', bestFrame' := Some(pos), Some(threads'[hit.value].frame);
    }
  }

  /** The threads before the first rune, and whether the empty prefix matches. */
  method StartRound(e: RegexEngine, ctx: MatchContext, frame: nat, f: Flags, ghost t: Subject)
      returns (threads: seq<Thread>, best: Option<nat>, bestFrame: Option<nat>, ghost paths: seq<Path>, ghost exhausted: bool)
    requires e.Ready() && t.Valid() && Bound(e, ctx, 0) && f == FlagsAt(t, 0) && t.offsets[0] == 0
    requires ctx.captureFrames == [Unset(e.numCaptures)] && frame == 0
    requires e.numCaptures > 0 && 1 <= FrameLimit(2 * e.numCaptures)
    modifies ctx
    ensures Simulating(e, ctx, t, 0, threads, paths, best, bestFrame, exhausted)
  {
    threads, paths, exhausted := StartCapturing(e, ctx, frame, f, t);
    var hit := CheckAccept(e, threads);
    BestNext(e, t, 0, [], ctx.captureFrames, threads, paths, false, exhausted, None, None, hit);
    best, bestFrame := None, None;
    if hit.Some? {
      best, bestFrame := Some(0), Some(threads[hit.value].frame);
    }
  }

  /**
   * What is known of a reported match. Captures always come from one
   * accepting run over the reported prefix. With room in the frame arena the
   * prefix is the longest one, and the run is the preferred one.
   */
  ghost predicate Reported(e: RegexEngine, t: Subject, best: Option<nat>, captures: seq<Capture>)
    requires t.Valid()
  {
    && (best.Some? ==> Credited(e, t, best.value, captures))
    && (best.None? ==> captures == [])
    && (Room(e, t) ==> IsLongestPrefix(e.pattern, t, best))
  }

  ghost predicate Credited(e: RegexEngine, t: Subject, len: nat, captures: seq<Capture>)
    requires t.Valid()
  {
    Witnessed(e, t, len, captures) && (Room(e, t) && e.numCaptures > 0 ==> Prioritized(e, t, len, captures))
  }

  lemma {:induction false} Report(e: RegexEngine, ctx: MatchContext, t: Subject, i: nat, threads: seq<Thread>, paths: seq<Path>,
               best: Option<nat>, bestFrame: Option<nat>, captures: seq<Capture>, exhausted: bool)
    requires e.Ready() && e.numCaptures > 0 && t.Valid() && i <= |t.runes|
    requires Simulating(e, ctx, t, i, threads, paths, best, bestFrame, exhausted)
    requires i == |t.runes| || threads == []
    requires captures == if best.Some? then Spans(ctx.captureFrames[bestFrame.value]) else []
    ensures Reported(e, t, best, captures) && |ctx.captureFrames| == FramesTaken(e, t)
  {
    FramesAtTheEnd(e, t, i, ctx.captureFrames, threads, paths, exhausted);
    if !exhausted {
      FinalBest(e, t, i, ctx.captureFrames, threads, paths, best, bestFrame);
    }
    if best.Some? {
      WitnessReported(e, t, best.value, ctx.captureFrames[bestFrame.value], exhausted);
    }
  }

  lemma {:induction false} WitnessReported(e: RegexEngine, t: Subject, len: nat, d: Captures, exhausted: bool)
    requires e.Ready() && t.Valid() && FrameWitness(e, t, len, d, exhausted)
    ensures Witnessed(e, t, len, Spans(d)) && (!exhausted ==> Prioritized(e, t, len, Spans(d)))
  {
    var p :| PathWitness(e, t, len, d, exhausted, p);
    AcceptTracked(e, t, p);
  }

  /**
   * The longest prefix with captures. A clone is refused exactly where the
   * automaton needs more frames than the arena holds; then threads are
   * dropped, and a shorter prefix may be reported.
   */
  method FindPrefixWithContext(e: RegexEngine, s: seq<Byte>, ctx: MatchContext, atStart: bool, prevWord: bool)
      returns (best: Option<nat>, captures: seq<Capture>)
    requires ctx.Valid() && (e.errorCode == Postfix.NoError ==> e.Ready())
    modifies ctx
    ensures ctx.Valid()
    ensures e.errorCode != Postfix.NoError ==> best == None && captures == []
    ensures e.errorCode == Postfix.NoError ==> Reported(e, SubjectOf(e.classes, s, atStart, prevWord), best, captures)
    ensures e.errorCode == Postfix.NoError && e.numCaptures > 0 ==>
              |ctx.captureFrames| == FramesTaken(e, SubjectOf(e.classes, s, atStart, prevWord))
  {
    ctx.BindEngine(e, |e.states|);
    if e.errorCode != Postfix.NoError || e.numCaptures == 0 {
      best := e.FindPrefixNoncapturing(s, ctx, atStart, prevWord);
      captures := [];
      if best.Some? {
        NoGroupsWitnessed(e, SubjectOf(e.classes, s, atStart, prevWord), best.value);
      }
      return;
    }
    SubjectReads(e.classes, s, atStart, prevWord);
    best, captures := FindPrefixCapturing(e, s, ctx, atStart, prevWord, SubjectOf(e.classes, s, atStart, prevWord));
  }

  method FindPrefixCapturing(e: RegexEngine, s: seq<Byte>, ctx: MatchContext, atStart: bool, prevWord: bool, ghost t: Subject)
      returns (best: Option<nat>, captures: seq<Capture>)
    requires ctx.Valid() && |ctx.visitedStates| == |e.states| && e.Ready() && e.numCaptures > 0
    requires ReadsAs(s, t) && t.atStart == atStart && t.prevWord == prevWord && t.classes == e.classes
    modifies ctx
    ensures ctx.Valid()
    ensures Reported(e, t, best, captures) && |ctx.captureFrames| == FramesTaken(e, t)
  {
    assert BoundaryAt(s, t, 0);
    ctx.ResetCaptureFrames(2 * e.numCaptures);
    var here, nextIsWord := ReadAhead(s, 0, t, 0);
    var init := ctx.AllocateCaptureFrame();
    if init == None {
      FramesAfterGrow(e.states, t, e.startState, 0, |t.runes| + 1);
      return None, [];
    }
    var threads, bestFrame;
    ghost var paths, exhausted;
    threads, best, bestFrame, paths, exhausted := StartRound(e, ctx, init.value, Flags(prevWord != nextIsWord, atStart, s == []), t);
    best, captures := RunToEnd(e, s, ctx, threads, here, nextIsWord, best, bestFrame, t, paths, exhausted);
  }

  /** The rounds after the first: one per rune, while there are threads. */
  method RunToEnd(e: RegexEngine, s: seq<Byte>, ctx: MatchContext, threads0: seq<Thread>, here0: Decoded, nextIsWord0: bool,
                  best0: Option<nat>, bestFrame0: Option<nat>, ghost t: Subject, ghost paths0: seq<Path>, ghost exhausted0: bool)
      returns (best: Option<nat>, captures: seq<Capture>)
    requires e.Ready() && e.numCaptures > 0 && ReadsAs(s, t) && t.classes == e.classes
    requires CursorAt(s, t, 0, 0, here0, nextIsWord0)
    requires Simulating(e, ctx, t, 0, threads0, paths0, best0, bestFrame0, exhausted0)
    modifies ctx
    ensures ctx.Valid()
    ensures Reported(e, t, best, captures) && |ctx.captureFrames| == FramesTaken(e, t)
  {
    var threads, here, nextIsWord, bestFrame := threads0, here0, nextIsWord0, bestFrame0;
    best := best0;
    ghost var paths, exhausted := paths0, exhausted0;
    ghost var i: nat := 0;
    var pos := 0;
    while pos < |s| && threads != []
      invariant CursorAt(s, t, i, pos, here, nextIsWord)
      invariant Simulating(e, ctx, t, i, threads, paths, best, bestFrame, exhausted)
      decreases |s| - pos
    {
      var rune, prevIsWord := here.rune, nextIsWord;
      pos, here, nextIsWord := Forward(s, pos, here, nextIsWord, t, i);
      var f := Flags(prevIsWord != nextIsWord, false, pos >= |s|);
      threads, best, bestFrame, paths, exhausted := Round(e, ctx, threads, rune, pos, f, best, bestFrame, t, i, paths, exhausted);
      i := i + 1;
    }
    captures := if best.Some? then Spans(ctx.captureFrames[bestFrame.value]) else [];
    Report(e, ctx, t, i, threads, paths, best, bestFrame, captures, exhausted);
  }

  /** The cursor moves on by one rune. */
  method Forward(s: seq<Byte>, pos: nat, here: Decoded, nextIsWord: bool, ghost t: Subject, ghost i: nat)
      returns (pos': nat, here': Decoded, nextIsWord': bool)
    requires ReadsAs(s, t) && i <= |t.runes| && pos < |s| && CursorAt(s, t, i, pos, here, nextIsWord)
    ensures i < |t.runes| && here.rune == t.runes[i] && pos < pos' == t.offsets[i + 1] <= |s|
    ensures CursorAt(s, t, i + 1, pos', here', nextIsWord')
    ensures Flags(nextIsWord != nextIsWord', false, pos' >= |s|) == FlagsAt(t, i + 1)
  {
    pos' := pos + here.width;
    here', nextIsWord' := ReadAhead(s, pos', t, i + 1);
  }
}
