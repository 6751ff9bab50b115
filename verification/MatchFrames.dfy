// Captures while matching: the Match class of rewrite.h, a stack of frames
// that are reused without being cleared, and the match methods that use it.

module MatchFrames {
  import opened Options
  import opened TreePatterns

  // ---------------------------------------------------------------------
  // Frame stacks as values
  // ---------------------------------------------------------------------

  /** A frame's captures count only if it is marked valid. */
  datatype Frame = Frame(valid: bool, vars: Env)

  datatype Stack = Stack(index: nat, frames: seq<Frame>)
  {
    predicate Ok() { index < |frames| }

    function Set(name: Name, range: Range): (s: Stack)
      requires Ok()
      ensures s.Ok()
    {
      var f := frames[index];
      this.(frames := frames[index := Frame(true, (if f.valid then f.vars else map[])[name := range])])
    }

    /** A new frame on top; the storage doubles when it is full. */
    function Add(): (s: Stack)
      requires Ok()
      ensures s.Ok() && s.index == index + 1 && s.frames[..index + 1] == frames[..index + 1] && !s.frames[s.index].valid
    {
      if |frames| == index + 1 then Stack(index + 1, frames + seq(2 * (index + 1) - |frames|, _ => Frame(false, map[])))
      else Stack(index + 1, frames[index + 1 := frames[index + 1].(valid := false)])
    }

    function Return(k: nat): (s: Stack)
      requires k <= index && Ok()
      ensures s.Ok()
    {
      Stack(k, frames)
    }
  }

  /** The captures of the first `n` frames, later frames overriding earlier ones. */
  function Merged(frames: seq<Frame>, n: nat): Env
    requires n <= |frames|
  {
    if n == 0 then map[]
    else Merged(frames, n - 1) + if frames[n - 1].valid then frames[n - 1].vars else map[]
  }

  /** The environment a stack stands for. */
  function View(s: Stack): Env
    requires s.Ok()
  {
    Merged(s.frames, s.index + 1)
  }

  lemma {:induction false} MergedAgree(a: seq<Frame>, b: seq<Frame>, n: nat)
    requires n <= |a| && n <= |b| && a[..n] == b[..n]
    ensures Merged(a, n) == Merged(b, n)
  {
    if n > 0 {
      assert a[n - 1] == a[..n][n - 1] == b[..n][n - 1] == b[n - 1];
      assert a[..n - 1] == a[..n][..n - 1] == b[..n][..n - 1] == b[..n - 1];
      MergedAgree(a, b, n - 1);
    }
  }

  lemma AddKeepsView(s: Stack)
    requires s.Ok()
    ensures View(s.Add()) == View(s)
  {
    MergedAgree(s.frames, s.Add().frames, s.index + 1);
  }

  lemma SetExtendsView(s: Stack, name: Name, range: Range)
    requires s.Ok()
    ensures View(s.Set(name, range)) == View(s)[name := range]
  {
    var t := s.Set(name, range);
    assert t.frames[..s.index] == s.frames[..s.index];
    MergedAgree(s.frames, t.frames, s.index);
  }

  /** Returning to a frame below which nothing has changed restores its environment. */
  lemma ReturnRestoresView(s: Stack, t: Stack)
    requires s.Ok() && t.Ok() && s.index <= t.index && t.frames[..s.index + 1] == s.frames[..s.index + 1]
    ensures View(t.Return(s.index)) == View(s)
  {
    MergedAgree(s.frames, t.frames, s.index + 1);
  }

  // ---------------------------------------------------------------------
  // Matching with frames
  // ---------------------------------------------------------------------

  /** What a match method leaves: its verdict, the position, the frame stack. */
  datatype Run = Run(ok: bool, it: nat, stack: Stack)

  ghost predicate Later(s: Stack, t: Stack)
  {
    s.Ok() && t.Ok() && s.index <= t.index && t.frames[..s.index] == s.frames[..s.index]
  }

  ghost function RunShape(o: Oracle, s: Shape, p: Parent, i: nat, st: Stack): (r: Run)
    requires i <= |p.children| && st.Ok()
    ensures i <= r.it <= |p.children| && Later(st, r.stack)
    decreases s, 0
  {
    match s
    case Cap(name, c) =>
      var r := RunChain(o, c, p, i, st);
      if r.ok then Run(true, r.it, r.stack.Set(name, Range(p, i, r.it))) else r
    case Anything => if i < |p.children| then Run(true, i + 1, st) else Run(false, i, st)
    case TokenMatch(types) => if i < |p.children| && p.children[i].kind in types then Run(true, i + 1, st) else Run(false, i, st)
    case RegexMatch(t, re) =>
      if i < |p.children| && p.children[i].kind == t && o.fullMatch(re, p.children[i].text) then Run(true, i + 1, st)
      else Run(false, i, st)
    case Opt(c) =>
      var r := RunChain(o, c, p, i, st.Add());
      if r.ok then r else Run(true, i, r.stack.Return(st.index))
    case Rep(c) => var (end, st') := RunRepeat(o, c, p, i, st); Run(true, end, st')
    case Not(c) =>
      if i == |p.children| then Run(false, i, st)
      else var r := RunChain(o, c, p, i, st); Run(!r.ok, i + 1, r.stack)
    case Choice(a, b) =>
      if HasCaptures(a) then
        var r := RunChain(o, a, p, i, st.Add());
        if r.ok then r else RunChain(o, b, p, i, r.stack.Return(st.index))
      else
        var r := RunChain(o, a, p, i, st);
        if r.ok then r else RunChain(o, b, p, i, r.stack)
    case InsideStar(types) => Run(InAncestors(types, p), i, st)
    case Inside(types) => Run(p.kind in types, i, st)
    case First => Run(i == 0, i, st)
    case Last => Run(i == |p.children|, i, st)
    case Children(a, b) =>
      var r := RunChain(o, a, p, i, st);
      if !r.ok || i == |p.children| then r.(ok := false)
      else
        var below := RunChain(o, b, p.Inside(i), 0, r.stack);
        Run(below.ok, r.it, below.stack)
    case Pred(c) => var r := RunChain(o, c, p, i, st); Run(r.ok, i, r.stack)
    case NegPred(c) => var r := RunChain(o, c, p, i, st); Run(!r.ok, i, r.stack)
    case Action(c, id) =>
      var r := RunChain(o, c, p, i, st);
      if r.ok then r.(ok := o.action(id, Range(p, i, r.it))) else r
  }

  ghost function RunChain(o: Oracle, c: Chain, p: Parent, i: nat, st: Stack): (r: Run)
    requires i <= |p.children| && st.Ok()
    ensures i <= r.it <= |p.children| && Later(st, r.stack)
    decreases c, 1
  {
    var r := RunShape(o, c.shape, p, i, st);
    if !r.ok || c.End? || c.shape.Last? then r else RunChain(o, c.next, p, r.it, r.stack)
  }

  ghost function RunRepeat(o: Oracle, c: Chain, p: Parent, i: nat, st: Stack): (r: (nat, Stack))
    requires i <= |p.children| && st.Ok()
    ensures i <= r.0 <= |p.children| && Later(st, r.1)
    decreases c, 2, |p.children| - i
  {
    if i == |p.children| then (i, st)
    else
      var r := RunChain(o, c, p, i, st);
      if !r.ok || r.it == i then (i, r.stack) else RunRepeat(o, c, p, r.it, r.stack)
  }

  // ---------------------------------------------------------------------
  // Patterns without captures leave no trace
  // ---------------------------------------------------------------------

  /** The frames up to the current one and the environment are as before. */
  ghost predicate Untouched(s: Stack, t: Stack)
  {
    s.Ok() && t.Ok() && s.index <= t.index && t.frames[..s.index + 1] == s.frames[..s.index + 1] && View(t) == View(s)
  }

  lemma UntouchedTrans(a: Stack, b: Stack, c: Stack)
    requires Untouched(a, b) && Untouched(b, c)
    ensures Untouched(a, c)
  {
    assert c.frames[..a.index + 1] == c.frames[..b.index + 1][..a.index + 1];
    assert b.frames[..a.index + 1] == b.frames[..b.index + 1][..a.index + 1];
  }

  lemma AddUntouched(s: Stack)
    requires s.Ok()
    ensures Untouched(s, s.Add())
  {
    AddKeepsView(s);
  }

  lemma ReturnUntouched(s: Stack, t: Stack)
    requires s.Ok() && Untouched(s.Add(), t)
    ensures Untouched(s, t.Return(s.index))
  {
    AddUntouched(s);
    UntouchedTrans(s, s.Add(), t);
    ReturnRestoresView(s, t);
  }

  lemma {:induction false} ChainUntouched(o: Oracle, c: Chain, p: Parent, i: nat, st: Stack)
    requires i <= |p.children| && st.Ok() && !Binds(c)
    ensures Untouched(st, RunChain(o, c, p, i, st).stack)
    decreases c, 1
  {
    ShapeUntouched(o, c.shape, p, i, st);
    var r := RunShape(o, c.shape, p, i, st);
    if r.ok && c.Link? && !c.shape.Last? {
      ChainUntouched(o, c.next, p, r.it, r.stack);
      UntouchedTrans(st, r.stack, RunChain(o, c, p, i, st).stack);
    }
  }

  lemma {:induction false} ShapeUntouched(o: Oracle, s: Shape, p: Parent, i: nat, st: Stack)
    requires i <= |p.children| && st.Ok() && !ShapeBinds(s)
    ensures Untouched(st, RunShape(o, s, p, i, st).stack)
    decreases s, 0
  {
    match s
    case Opt(c) =>
      ChainUntouched(o, c, p, i, st.Add());
      var r := RunChain(o, c, p, i, st.Add());
      AddUntouched(st);
      UntouchedTrans(st, st.Add(), r.stack);
      if !r.ok {
        ReturnUntouched(st, r.stack);
      }
    case Rep(c) => RepeatUntouched(o, c, p, i, st);
    case Not(c) => if i < |p.children| { ChainUntouched(o, c, p, i, st); }
    case Choice(a, b) =>
      if HasCaptures(a) {
        HasCapturesBinds(a);
      }
      ChainUntouched(o, a, p, i, st);
      var r := RunChain(o, a, p, i, st);
      if !r.ok {
        ChainUntouched(o, b, p, i, r.stack);
        UntouchedTrans(st, r.stack, RunChain(o, b, p, i, r.stack).stack);
      }
    case Children(a, b) =>
      ChainUntouched(o, a, p, i, st);
      var r := RunChain(o, a, p, i, st);
      if r.ok && i < |p.children| {
        ChainUntouched(o, b, p.Inside(i), 0, r.stack);
        UntouchedTrans(st, r.stack, RunChain(o, b, p.Inside(i), 0, r.stack).stack);
      }
    case Pred(c) => ChainUntouched(o, c, p, i, st);
    case NegPred(c) => ChainUntouched(o, c, p, i, st);
    case Action(c, _) => ChainUntouched(o, c, p, i, st);
    case _ =>
  }

  lemma {:induction false} RepeatUntouched(o: Oracle, c: Chain, p: Parent, i: nat, st: Stack)
    requires i <= |p.children| && st.Ok() && !Binds(c)
    ensures Untouched(st, RunRepeat(o, c, p, i, st).1)
    decreases c, 2, |p.children| - i
  {
    if i < |p.children| {
      ChainUntouched(o, c, p, i, st);
      var r := RunChain(o, c, p, i, st);
      if r.ok && r.it != i {
        RepeatUntouched(o, c, p, r.it, r.stack);
        UntouchedTrans(st, r.stack, RunRepeat(o, c, p, r.it, r.stack).1);
      }
    }
  }

  // ---------------------------------------------------------------------
  // Frames refine environments
  // ---------------------------------------------------------------------

  /** A run with frames does what the pattern means: same verdict, same end, and on success the same captures. */
  ghost predicate Agrees(r: Run, m: Result)
  {
    r.stack.Ok() && (r.ok <==> m.Success?) && (m.Success? ==> r.it == m.end && View(r.stack) == m.env)
  }

  /** After a failed attempt in a new frame, the environment is the one before it. */
  lemma FailedAttempt(st: Stack, t: Stack)
    requires st.Ok() && Later(st.Add(), t)
    ensures View(t.Return(st.index)) == View(st)
  {
    assert t.frames[..st.index + 1] == st.Add().frames[..st.index + 1];
    ReturnRestoresView(st, t);
  }

  lemma {:induction false} ChainRefines(o: Oracle, c: Chain, p: Parent, i: nat, st: Stack)
    requires i <= |p.children| && st.Ok() && Legal(c) && Honest(c)
    ensures Agrees(RunChain(o, c, p, i, st), MatchChain(o, c, p, i, View(st)))
    decreases c, 2
  {
    ShapeRefines(o, c.shape, p, i, st);
    var r := RunShape(o, c.shape, p, i, st);
    if r.ok && c.Link? {
      ChainRefines(o, c.next, p, r.it, r.stack);
    }
  }

  lemma {:induction false} ShapeRefines(o: Oracle, s: Shape, p: Parent, i: nat, st: Stack)
    requires i <= |p.children| && st.Ok() && ShapeLegal(s) && ShapeHonest(s)
    ensures Agrees(RunShape(o, s, p, i, st), MatchShape(o, s, p, i, View(st)))
    decreases s, 1
  {
    match s
    case Cap(name, c) =>
      ChainRefines(o, c, p, i, st);
      var r := RunChain(o, c, p, i, st);
      SetExtendsView(r.stack, name, Range(p, i, r.it));
    case Opt(c) =>
      AddKeepsView(st);
      ChainRefines(o, c, p, i, st.Add());
      FailedAttempt(st, RunChain(o, c, p, i, st.Add()).stack);
    case Rep(c) =>
      RepeatUntouched(o, c, p, i, st);
      RepeatRefines(o, c, p, i, st);
    case Not(c) =>
      if i < |p.children| {
        ChainRefines(o, c, p, i, st);
        ChainUntouched(o, c, p, i, st);
      }
    case Choice(a, b) => ChoiceRefines(o, a, b, p, i, st);
    case Children(a, b) =>
      ChainRefines(o, a, p, i, st);
      var r := RunChain(o, a, p, i, st);
      if r.ok && i < |p.children| {
        ChainRefines(o, b, p.Inside(i), 0, r.stack);
      }
    case Pred(c) =>
      ChainRefines(o, c, p, i, st);
      ChainUntouched(o, c, p, i, st);
    case NegPred(c) =>
      ChainRefines(o, c, p, i, st);
      ChainUntouched(o, c, p, i, st);
    case Action(c, _) => ChainRefines(o, c, p, i, st);
    case _ =>
  }

  lemma {:induction false} ChoiceRefines(o: Oracle, a: Chain, b: Chain, p: Parent, i: nat, st: Stack)
    requires i <= |p.children| && st.Ok() && ShapeLegal(Choice(a, b)) && ShapeHonest(Choice(a, b))
    ensures Agrees(RunShape(o, Choice(a, b), p, i, st), MatchShape(o, Choice(a, b), p, i, View(st)))
    decreases Choice(a, b), 0
  {
    if HasCaptures(a) {
      AddKeepsView(st);
      ChainRefines(o, a, p, i, st.Add());
      var r := RunChain(o, a, p, i, st.Add());
      FailedAttempt(st, r.stack);
      if !r.ok {
        ChainRefines(o, b, p, i, r.stack.Return(st.index));
      }
    } else {
      ChainRefines(o, a, p, i, st);
      ChainUntouched(o, a, p, i, st);
      var r := RunChain(o, a, p, i, st);
      if !r.ok {
        ChainRefines(o, b, p, i, r.stack);
      }
    }
  }

  lemma {:induction false} RepeatRefines(o: Oracle, c: Chain, p: Parent, i: nat, st: Stack)
    requires i <= |p.children| && st.Ok() && Legal(c) && Honest(c) && !Binds(c)
    ensures RunRepeat(o, c, p, i, st).0 == RepeatEnd(o, c, p, i)
    decreases c, 3, |p.children| - i
  {
    if i < |p.children| {
      ChainRefines(o, c, p, i, st);
      EndIgnoresEnv(o, c, p, i, View(st), map[]);
      var r := RunChain(o, c, p, i, st);
      if r.ok && r.it != i {
        RepeatRefines(o, c, p, r.it, r.stack);
      }
    }
  }

  // ---------------------------------------------------------------------
  // Repetition makes progress
  // ---------------------------------------------------------------------

  /** The pattern consumes a child whenever it matches. */
  predicate ShapeConsumes(s: Shape)
  {
    match s
    case Anything => true
    case TokenMatch(_) => true
    case RegexMatch(_, _) => true
    case Not(_) => true
    case Cap(_, c) => Consumes(c)
    case Action(c, _) => Consumes(c)
    case Children(a, _) => Consumes(a)
    case Choice(a, b) => Consumes(a) && Consumes(b)
    case _ => false
  }

  predicate Consumes(c: Chain)
  {
    ShapeConsumes(c.shape) || (c.Link? && Consumes(c.next))
  }

  /** Every repeated pattern consumes a child; repeating one that does not would not end. */
  predicate ShapeProductive(s: Shape)
  {
    match s
    case Cap(_, c) => Productive(c)
    case Opt(c) => Productive(c)
    case Rep(c) => Productive(c) && Consumes(c)
    case Not(c) => Productive(c)
    case Choice(a, b) => Productive(a) && Productive(b)
    case Children(a, b) => Productive(a) && Productive(b)
    case Pred(c) => Productive(c)
    case NegPred(c) => Productive(c)
    case Action(c, _) => Productive(c)
    case _ => true
  }

  predicate Productive(c: Chain)
  {
    ShapeProductive(c.shape) && (c.Link? ==> Productive(c.next))
  }

  lemma {:induction false} ConsumesAdvances(o: Oracle, c: Chain, p: Parent, i: nat, st: Stack)
    requires i <= |p.children| && st.Ok() && Consumes(c) && Legal(c)
    ensures RunChain(o, c, p, i, st).ok ==> RunChain(o, c, p, i, st).it > i
    decreases c, 1
  {
    var r := RunShape(o, c.shape, p, i, st);
    if ShapeConsumes(c.shape) {
      ShapeAdvances(o, c.shape, p, i, st);
    } else if r.ok {
      ConsumesAdvances(o, c.next, p, r.it, r.stack);
    }
  }

  lemma {:induction false} ShapeAdvances(o: Oracle, s: Shape, p: Parent, i: nat, st: Stack)
    requires i <= |p.children| && st.Ok() && ShapeConsumes(s) && ShapeLegal(s)
    ensures RunShape(o, s, p, i, st).ok ==> RunShape(o, s, p, i, st).it > i
    decreases s, 0
  {
    match s
    case Cap(_, c) => ConsumesAdvances(o, c, p, i, st);
    case Action(c, _) => ConsumesAdvances(o, c, p, i, st);
    case Children(a, _) => ConsumesAdvances(o, a, p, i, st);
    case Choice(a, b) =>
      var st' := if HasCaptures(a) then st.Add() else st;
      ConsumesAdvances(o, a, p, i, st');
      var r := RunChain(o, a, p, i, st');
      ConsumesAdvances(o, b, p, i, if HasCaptures(a) then r.stack.Return(st.index) else r.stack);
    case _ =>
  }

  // ---------------------------------------------------------------------
  // The Match object
  // ---------------------------------------------------------------------

  class Match {
    var index: nat
    var captures: seq<Frame>

    ghost predicate Valid()
      reads this
    {
      index < |captures|
    }

    function State(): Stack
      reads this
    {
      Stack(index, captures)
    }

    constructor ()
      ensures Valid() && View(State()) == map[]
    {
      index, captures := 0, seq(16, _ => Frame(false, map[]));
      new;
      assert Merged(captures, 0) == map[] && Merged(captures, 1) == map[];
    }

    /** Forgets everything by invalidating the first frame. */
    method Reset()
      requires Valid()
      modifies this
      ensures Valid() && index == 0 && View(State()) == map[]
    {
      index := 0;
      captures := captures[0 := captures[0].(valid := false)];
      assert Merged(captures, 0) == map[] && Merged(captures, 1) == map[];
    }

    method Set(name: Name, range: Range)
      requires Valid()
      modifies this
      ensures Valid() && State() == old(State()).Set(name, range)
    {
      var f := captures[index];
      if !f.valid {
        f := Frame(true, map[]);
      }
      captures := captures[index := Frame(true, f.vars[name := range])];
    }

    method AddFrame() returns (backtrack: nat)
      requires Valid()
      modifies this
      ensures Valid() && State() == old(State()).Add() && backtrack == old(index)
    {
      index := index + 1;
      if |captures| == index {
        captures := captures + seq(2 * index - |captures|, _ => Frame(false, map[]));
      } else {
        captures := captures[index := captures[index].(valid := false)];
      }
      backtrack := index - 1;
    }

    method ReturnToFrame(k: nat)
      requires Valid() && k <= index
      modifies this
      ensures Valid() && State() == old(State()).Return(k)
    {
      index := k;
    }

    /** The last capture of a name. */
    method Lookup(name: Name) returns (r: Option<Range>)
      requires Valid()
      ensures r == if name in View(State()) then Some(View(State())[name]) else None
    {
      var i: nat := index + 1;
      while i > 0
        invariant i <= index + 1
        invariant name in View(State()) <==> name in Merged(captures, i)
        invariant name in View(State()) ==> View(State())[name] == Merged(captures, i)[name]
      {
        var f := captures[i - 1];
        if f.valid && name in f.vars {
          return Some(f.vars[name]);
        }
        i := i - 1;
      }
      return None;
    }

    /** The first node of a capture; frames where the capture is empty are passed over. */
    method LookupNode(name: Name) returns (r: Option<Tree>)
      requires Valid()
      ensures var view := View(State());
              && (name !in view ==> r == None)
              && (name in view && view[name].begin < view[name].end <= |view[name].parent.children| ==>
                   r == Some(view[name].parent.children[view[name].begin]))
    {
      var i: nat := index + 1;
      ghost var view := View(State());
      while i > 0
        invariant i <= index + 1
        invariant name !in view ==> name !in Merged(captures, i)
        invariant name in view && view[name].begin < view[name].end <= |view[name].parent.children| ==>
                    name in Merged(captures, i) && view[name] == Merged(captures, i)[name]
      {
        var f := captures[i - 1];
        if f.valid && name in f.vars {
          var range := f.vars[name];
          if range.begin < range.end <= |range.parent.children| {
            return Some(range.parent.children[range.begin]);
          }
        }
        i := i - 1;
      }
      return None;
    }
  }

  // ---------------------------------------------------------------------
  // The match methods
  // ---------------------------------------------------------------------

  /** A pattern and its continuation. */
  method TryChain(o: Oracle, c: Chain, p: Parent, it: nat, m: Match) returns (ok: bool, end: nat)
    requires it <= |p.children| && m.Valid() && Legal(c) && Productive(c)
    modifies m
    ensures m.Valid() && end <= |p.children|
    ensures Run(ok, end, m.State()) == RunChain(o, c, p, it, old(m.State()))
    decreases c, 1
  {
    ok, end := TryShape(o, c.shape, p, it, m);
    if ok && c.Link? {
      ok, end := TryChain(o, c.next, p, end, m);
    }
  }

  method TryShape(o: Oracle, s: Shape, p: Parent, it: nat, m: Match) returns (ok: bool, end: nat)
    requires it <= |p.children| && m.Valid() && ShapeLegal(s) && ShapeProductive(s)
    modifies m
    ensures m.Valid() && end <= |p.children|
    ensures Run(ok, end, m.State()) == RunShape(o, s, p, it, old(m.State()))
    decreases s, 1
  {
    ok, end := false, it;
    match s
    case Cap(name, c) =>
      ok, end := TryChain(o, c, p, it, m);
      if ok {
        m.Set(name, Range(p, it, end));
      }
    case Anything =>
      if it < |p.children| {
        ok, end := true, it + 1;
      }
    case TokenMatch(types) =>
      if it < |p.children| && p.children[it].kind in types {
        ok, end := true, it + 1;
      }
    case RegexMatch(t, re) =>
      if it < |p.children| && p.children[it].kind == t && o.fullMatch(re, p.children[it].text) {
        ok, end := true, it + 1;
      }
    case Opt(c) =>
      var backtrack := m.AddFrame();
      ok, end := TryChain(o, c, p, it, m);
      if !ok {
        m.ReturnToFrame(backtrack);
        ok, end := true, it;
      }
    case Rep(c) =>
      end := TryRepeat(o, c, p, it, m);
      ok := true;
    case Not(c) =>
      if it < |p.children| {
        var matched, _ := TryChain(o, c, p, it, m);
        ok, end := !matched, it + 1;
      }
    case Choice(a, b) => ok, end := TryChoice(o, a, b, p, it, m);
    case InsideStar(types) => ok := InAncestors(types, p);
    case Inside(types) => ok := p.kind in types;
    case First => ok := it == 0;
    case Last => ok := it == |p.children|;
    case Children(a, b) =>
      ok, end := TryChain(o, a, p, it, m);
      if ok && it == |p.children| {
        ok := false;
      } else if ok {
        var inside;
        ok, inside := TryChain(o, b, p.Inside(it), 0, m);
      }
    case Pred(c) =>
      var ahead;
      ok, ahead := TryChain(o, c, p, it, m);
    case NegPred(c) =>
      var matched, _ := TryChain(o, c, p, it, m);
      ok := !matched;
    case Action(c, id) =>
      ok, end := TryChain(o, c, p, it, m);
      ok := ok && o.action(id, Range(p, it, end));
  }

  /** Ordered choice; a first branch with captures runs in a frame of its own. */
  method TryChoice(o: Oracle, a: Chain, b: Chain, p: Parent, it: nat, m: Match) returns (ok: bool, end: nat)
    requires it <= |p.children| && m.Valid() && ShapeLegal(Choice(a, b)) && ShapeProductive(Choice(a, b))
    modifies m
    ensures m.Valid() && end <= |p.children|
    ensures Run(ok, end, m.State()) == RunShape(o, Choice(a, b), p, it, old(m.State()))
    decreases Choice(a, b), 0
  {
    var backtrack := m.index;
    if HasCaptures(a) {
      backtrack := m.AddFrame();
    }
    ok, end := TryChain(o, a, p, it, m);
    if ok {
      return;
    }
    if HasCaptures(a) {
      m.ReturnToFrame(backtrack);
    }
    ok, end := TryChain(o, b, p, it, m);
  }

  /** Greedy repetition without captures. */
  method TryRepeat(o: Oracle, c: Chain, p: Parent, it: nat, m: Match) returns (end: nat)
    requires it <= |p.children| && m.Valid() && Legal(c) && Productive(c) && Consumes(c)
    modifies m
    ensures m.Valid()
    ensures (end, m.State()) == RunRepeat(o, c, p, it, old(m.State()))
    decreases c, 2
  {
    end := it;
    while end < |p.children|
      invariant it <= end <= |p.children| && m.Valid()
      invariant RunRepeat(o, c, p, end, m.State()) == RunRepeat(o, c, p, it, old(m.State()))
      decreases |p.children| - end
    {
      ConsumesAdvances(o, c, p, end, m.State());
      var ok, next := TryChain(o, c, p, end, m);
      if !ok {
        return;
      }
      end := next;
    }
  }

  /**
   * Matching a rule's pattern on a fresh match object: the verdict, the end
   * and, for an honest pattern, exactly the captures the pattern means.
   */
  method TryPattern(o: Oracle, c: Chain, p: Parent, it: nat, m: Match) returns (ok: bool, end: nat)
    requires it <= |p.children| && m.Valid() && Legal(c) && Honest(c) && Productive(c)
    modifies m
    ensures m.Valid()
    ensures match MatchChain(o, c, p, it, map[])
            case Fail => !ok
            case Success(e, env) => ok && end == e && View(m.State()) == env
  {
    m.Reset();
    ChainRefines(o, c, p, it, m.State());
    ok, end := TryChain(o, c, p, it, m);
  }
}
