// One level of a pass, and a whole tree: match_children and apply_special in
// pass.h, told by what a scan of all rules would do.

module Sweeps {
  import opened Options
  import opened TreePatterns
  import opened FastPatterns
  import opened RuleIndex
  import MatchFrames

  // ---------------------------------------------------------------------
  // One round
  // ---------------------------------------------------------------------

  /** The rules of a pass and what they call; `once` is the flag of passes that do not start again after a change. */
  datatype Rules = Rules(oracle: Oracle, effects: Effects, patterns: seq<Pattern>, once: bool)
  {
    ghost predicate Ok() { forall q :: q in patterns ==> Ready(oracle, q) }

    ghost function FiringAt(p: Parent, i: nat): nat -> bool
      requires i < |p.children|
    {
      Firing(oracle, effects, patterns, p, i)
    }

    /** The first rule, in the order of the pass, that fires at a child. */
    ghost function RuleAt(p: Parent, i: nat): (r: Option<nat>)
      requires i < |p.children|
    {
      FirstFrom(FiringAt(p, i), 0, |patterns|)
    }

    /** Where the rule's match ends. */
    ghost function EndAt(p: Parent, i: nat): (end: nat)
      requires i < |p.children| && RuleAt(p, i).Some?
      ensures i <= end <= |p.children|
    {
      FirstFromFires(FiringAt(p, i), 0, |patterns|);
      MatchChain(oracle, patterns[RuleAt(p, i).value].chain, p, i, map[]).end
    }

    ghost function ChangeAt(p: Parent, i: nat): Change
      requires i < |p.children| && RuleAt(p, i).Some?
    {
      FirstFromFires(FiringAt(p, i), 0, |patterns|);
      effects.apply(RuleAt(p, i).value, MatchChain(oracle, patterns[RuleAt(p, i).value].chain, p, i, map[]).env).value
    }

    /** No effect asks to match again at the same place. */
    ghost predicate NoReapply()
    {
      forall r, env :: effects.apply(r, env).Some? ==> !effects.apply(r, env).value.reapply
    }

    /** No pattern matches without a child. */
    ghost predicate Consuming()
    {
      forall p: Parent, i: nat :: i < |p.children| && RuleAt(p, i).Some? ==> i < EndAt(p, i)
    }
  }

  ghost function FirstFrom(fires: nat -> bool, k: nat, n: nat): (r: Option<nat>)
    decreases n - k
  {
    if k >= n then None else if fires(k) then Some(k) else FirstFrom(fires, k + 1, n)
  }

  lemma {:induction false} FirstFromFires(fires: nat -> bool, k: nat, n: nat)
    ensures match FirstFrom(fires, k, n)
            case None => forall x: nat :: k <= x < n ==> !fires(x)
            case Some(r) => k <= r < n && fires(r) && forall x: nat :: k <= x < r ==> !fires(x)
    decreases n - k
  {
    if k < n && !fires(k) {
      FirstFromFires(fires, k + 1, n);
    }
  }

  /** A scan of all rules stops at that one. */
  lemma {:induction false} FirstOfAllIs(fires: nat -> bool, n: nat, r: Option<nat>)
    requires FirstOfAll(n, fires, r)
    ensures r == FirstFrom(fires, 0, n)
  {
    FirstFromFires(fires, 0, n);
  }

  /** Where a sweep over the children has come to, and how many changes it has made. */
  datatype Sweep = Sweep(children: seq<Tree>, it: nat, changes: nat)
  {
    predicate Done() { it >= |children| }
  }

  /** One round of the sweep under a parent: the first rule that fires is applied, or the sweep moves on. */
  ghost function Next(rules: Rules, p: Parent, s: Sweep): Sweep
    requires !s.Done()
  {
    var q := p.(children := s.children);
    if rules.RuleAt(q, s.it).None? then s.(it := s.it + 1)
    else
      var end, change := rules.EndAt(q, s.it), rules.ChangeAt(q, s.it);
      Sweep(s.children[..s.it] + change.replacement + s.children[end..],
            if change.reapply then s.it else if rules.once then s.it + |change.replacement| else 0,
            s.changes + 1)
  }

  ghost function After(rules: Rules, p: Parent, s: Sweep, n: nat): Sweep
    decreases n
  {
    if n == 0 || s.Done() then s else After(rules, p, Next(rules, p, s), n - 1)
  }

  lemma {:induction false} AfterOneMore(rules: Rules, p: Parent, s: Sweep, n: nat)
    requires !After(rules, p, s, n).Done()
    ensures After(rules, p, s, n + 1) == Next(rules, p, After(rules, p, s, n))
    decreases n
  {
    if n > 0 {
      AfterOneMore(rules, p, Next(rules, p, s), n - 1);
    } else {
      assert After(rules, p, s, 1) == After(rules, p, Next(rules, p, s), 0);
    }
  }

  // ---------------------------------------------------------------------
  // What a finished sweep leaves
  // ---------------------------------------------------------------------

  /** No rule fires at the first `n` children. */
  ghost predicate QuietUpTo(rules: Rules, p: Parent, n: nat)
    requires n <= |p.children|
  {
    forall i: nat :: i < n ==> rules.RuleAt(p, i).None?
  }

  ghost predicate Quiet(rules: Rules, p: Parent) { QuietUpTo(rules, p, |p.children|) }

  /** No rule fires behind the place the sweep has come to. */
  ghost predicate QuietBehind(rules: Rules, p: Parent, s: Sweep)
  {
    s.it <= |s.children| && QuietUpTo(rules, p.(children := s.children), s.it)
  }

  lemma NextQuiet(rules: Rules, p: Parent, s: Sweep)
    requires !s.Done() && QuietBehind(rules, p, s) && rules.NoReapply() && !rules.once
    ensures QuietBehind(rules, p, Next(rules, p, s))
  {
    var q := p.(children := s.children);
    if rules.RuleAt(q, s.it).Some? {
      FirstFromFires(rules.FiringAt(q, s.it), 0, |rules.patterns|);
    }
  }

  /** A sweep that starts again after every change is finished only when no rule fires at any child. */
  lemma {:induction false} FinishedIsQuiet(rules: Rules, p: Parent, s: Sweep, n: nat)
    requires QuietBehind(rules, p, s) && rules.NoReapply() && !rules.once && After(rules, p, s, n).Done()
    ensures Quiet(rules, p.(children := After(rules, p, s, n).children))
    decreases n
  {
    if n > 0 && !s.Done() {
      NextQuiet(rules, p, s);
      FinishedIsQuiet(rules, p, Next(rules, p, s), n - 1);
    }
  }

  lemma {:induction false} ChangesGrow(rules: Rules, p: Parent, s: Sweep, n: nat)
    ensures After(rules, p, s, n).changes >= s.changes
    decreases n
  {
    if n > 0 && !s.Done() {
      ChangesGrow(rules, p, Next(rules, p, s), n - 1);
    }
  }

  /** Whatever the flags, a finished sweep without changes has left the children as they were, and no rule fires at any. */
  lemma {:induction false} UnchangedIsQuiet(rules: Rules, p: Parent, s: Sweep, n: nat)
    requires QuietBehind(rules, p, s) && After(rules, p, s, n).Done() && After(rules, p, s, n).changes == s.changes
    ensures After(rules, p, s, n).children == s.children && Quiet(rules, p.(children := s.children))
    decreases n
  {
    if n > 0 && !s.Done() {
      var s' := Next(rules, p, s);
      ChangesGrow(rules, p, s', n - 1);
      assert s' == s.(it := s.it + 1);
      UnchangedIsQuiet(rules, p, s', n - 1);
    }
  }

  /** A sweep that goes on behind what it has put in visits every child once: it ends, and what lies ahead is untouched. */
  lemma {:induction false} OnceEnds(rules: Rules, p: Parent, s: Sweep, n: nat)
    requires s.it <= |s.children| && rules.once && rules.NoReapply() && rules.Consuming()
    ensures var t := After(rules, p, s, n);
            && t.it <= |t.children| && |t.children| - t.it <= |s.children| - s.it
            && t.children[t.it..] == s.children[|s.children| - (|t.children| - t.it)..]
            && (n >= |s.children| - s.it ==> t.Done())
    decreases n
  {
    if n > 0 && !s.Done() {
      var t := Next(rules, p, s);
      OnceStep(rules, p, s);
      OnceEnds(rules, p, t, n - 1);
      var u := After(rules, p, s, n);
      var left := |u.children| - u.it;
      assert t.children[|t.children| - left..] == t.children[t.it..][|t.children| - t.it - left..];
      assert s.children[|s.children| - left..] == s.children[|s.children| - (|t.children| - t.it)..][|t.children| - t.it - left..];
    }
  }

  lemma {:induction false} OnceStep(rules: Rules, p: Parent, s: Sweep)
    requires !s.Done() && rules.once && rules.NoReapply() && rules.Consuming()
    ensures var t := Next(rules, p, s);
            && t.it <= |t.children| && |t.children| - t.it < |s.children| - s.it
            && t.children[t.it..] == s.children[|s.children| - (|t.children| - t.it)..]
  {
    var q := p.(children := s.children);
    if rules.RuleAt(q, s.it).Some? {
      FirstFromFires(rules.FiringAt(q, s.it), 0, |rules.patterns|);
      var end, change := rules.EndAt(q, s.it), rules.ChangeAt(q, s.it);
      var front := s.children[..s.it] + change.replacement;
      assert !change.reapply && s.it < end;
      assert (front + s.children[end..])[|front|..] == s.children[end..];
    }
  }

  // ---------------------------------------------------------------------
  // The loops
  // ---------------------------------------------------------------------

  /** One round, with the index instead of a scan of all rules. */
  method Turn(pass: Pass, rules: Rules, p: Parent, s: Sweep, m: MatchFrames.Match) returns (s': Sweep)
    requires pass.Compiled() && pass.patterns == rules.patterns && rules.Ok() && m.Valid() && !s.Done()
    modifies m
    ensures m.Valid() && s' == Next(rules, p, s)
  {
    var q := p.(children := s.children);
    var rule, end, change := pass.SelectRule(rules.oracle, rules.effects, q, s.it, m);
    FirstOfAllIs(rules.FiringAt(q, s.it), |rules.patterns|, rule);
    if rule.None? {
      return s.(it := s.it + 1);
    }
    var children := s.children[..s.it] + change.replacement + s.children[end..];
    var it := if change.reapply then s.it else if rules.once then s.it + |change.replacement| else 0;
    s' := Sweep(children, it, s.changes + 1);
  }

  /**
   * Sweeps over the children of a node. Rules may keep on firing for ever, so
   * the rounds are bounded; a sweep that is finished is the one that trying
   * all rules at every child would have made.
   */
  method MatchChildren(pass: Pass, rules: Rules, p: Parent, m: MatchFrames.Match, rounds: nat)
    returns (children: seq<Tree>, changes: nat, finished: bool)
    requires pass.Compiled() && pass.patterns == rules.patterns && rules.Ok() && m.Valid()
    modifies m
    ensures m.Valid()
    ensures var t := After(rules, p, Sweep(p.children, 0, 0), rounds);
            finished == t.Done() && children == t.children && changes == t.changes
    ensures finished && changes == 0 ==> children == p.children && Quiet(rules, p)
    ensures finished && rules.NoReapply() && !rules.once ==> Quiet(rules, p.(children := children))
    ensures rules.once && rules.NoReapply() && rules.Consuming() && rounds >= |p.children| ==> finished
  {
    var start := Sweep(p.children, 0, 0);
    var s := start;
    var n := 0;
    while n < rounds && !s.Done()
      invariant n <= rounds && s == After(rules, p, start, n) && m.Valid()
    {
      AfterOneMore(rules, p, start, n);
      s := Turn(pass, rules, p, s, m);
      n := n + 1;
    }
    AfterDone(rules, p, start, n, rounds);
    assert p.(children := start.children) == p;
    if s.Done() {
      if s.changes == 0 {
        UnchangedIsQuiet(rules, p, start, rounds);
      }
      if rules.NoReapply() && !rules.once {
        FinishedIsQuiet(rules, p, start, rounds);
      }
    }
    if rules.once && rules.NoReapply() && rules.Consuming() {
      OnceEnds(rules, p, start, rounds);
    }
    return s.children, s.changes, s.Done();
  }

  lemma {:induction false} AfterDone(rules: Rules, p: Parent, s: Sweep, n: nat, more: nat)
    requires n <= more && (n == more || After(rules, p, s, n).Done())
    ensures After(rules, p, s, more) == After(rules, p, s, n)
    decreases n
  {
    if n > 0 && !s.Done() {
      AfterDone(rules, p, Next(rules, p, s), n - 1, more - 1);
    }
  }

  // ---------------------------------------------------------------------
  // The whole tree
  // ---------------------------------------------------------------------

  /** No rule fires anywhere in the tree; Error and Lift nodes are not entered. */
  ghost predicate Normal(rules: Rules, t: Tree, above: seq<Kind>)
  {
    rules.effects.internal(t.kind) ||
    (Quiet(rules, Parent(t.kind, t.children, above)) &&
     forall k :: 0 <= k < |t.children| ==> Normal(rules, t.children[k], [t.kind] + above))
  }

  /**
   * Applies the rules to a node and everything below, from the top down or
   * from the bottom up. Where that is finished without a change, the tree is
   * as it was and no rule fires anywhere in it; a pass that runs until then
   * leaves a tree in normal form.
   */
  method Apply(pass: Pass, rules: Rules, t: Tree, above: seq<Kind>, topdown: bool, m: MatchFrames.Match, rounds: nat, depth: nat)
    returns (t': Tree, changes: nat, finished: bool)
    requires pass.Compiled() && pass.patterns == rules.patterns && rules.Ok() && m.Valid()
    modifies m
    ensures m.Valid() && t'.kind == t.kind
    ensures finished && changes == 0 ==> t' == t && Normal(rules, t, above)
    decreases depth, 1
  {
    if rules.effects.internal(t.kind) {
      return t, 0, true;
    }
    if depth == 0 {
      return t, 0, false;
    }
    var children, first, second := t.children, 0, 0;
    finished := true;
    if topdown {
      children, first, finished := MatchChildren(pass, rules, Parent(t.kind, children, above), m, rounds);
    }
    ghost var visited := children;
    var all: bool;
    children, second, all := ApplyBelow(pass, rules, children, [t.kind] + above, topdown, m, rounds, depth - 1);
    finished := finished && all;
    if !topdown {
      children, first, all := MatchChildren(pass, rules, Parent(t.kind, children, above), m, rounds);
      finished := finished && all;
    }
    return Node(t.kind, t.text, children), first + second, finished;
  }

  method ApplyBelow(pass: Pass, rules: Rules, children: seq<Tree>, above: seq<Kind>, topdown: bool, m: MatchFrames.Match, rounds: nat, depth: nat)
    returns (children': seq<Tree>, changes: nat, finished: bool)
    requires pass.Compiled() && pass.patterns == rules.patterns && rules.Ok() && m.Valid()
    modifies m
    ensures m.Valid()
    ensures finished && changes == 0 ==> children' == children && forall k :: 0 <= k < |children| ==> Normal(rules, children[k], above)
    decreases depth, 2
  {
    children', changes, finished := [], 0, true;
    for k := 0 to |children|
      invariant m.Valid() && |children'| == k
      invariant finished && changes == 0 ==> children' == children[..k] && forall j :: 0 <= j < k ==> Normal(rules, children[j], above)
    {
      var child, more, all := Apply(pass, rules, children[k], above, topdown, m, rounds, depth);
      children', changes, finished := children' + [child], changes + more, finished && all;
    }
  }

  /**
   * Runs the pass on a tree until nothing changes any more, or once if the
   * pass says so. When a pass that is not run once is finished, no rule fires
   * anywhere.
   */
  method Run(pass: Pass, rules: Rules, t: Tree, topdown: bool, m: MatchFrames.Match, times: nat, rounds: nat, depth: nat)
    returns (t': Tree, finished: bool)
    requires pass.Compiled() && pass.patterns == rules.patterns && rules.Ok() && m.Valid()
    modifies m
    ensures m.Valid() && t'.kind == t.kind
    ensures finished && !rules.once ==> Normal(rules, t', [])
  {
    t', finished := t, false;
    for n := 0 to times
      invariant m.Valid() && t'.kind == t.kind
    {
      var changes: nat;
      t', changes, finished := Apply(pass, rules, t', [], topdown, m, rounds, depth);
      if !finished || rules.once || changes == 0 {
        return;
      }
    }
    finished := false;
  }
}
