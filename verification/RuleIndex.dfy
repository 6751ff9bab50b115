// The rule index of a pass: DefaultMap in defaultmap.h, compile_rules and the
// choice of a rule in match_children in pass.h.

module RuleIndex {
  import opened Options
  import opened TreePatterns
  import opened MatchFrames
  import opened FastPatterns

  const TABLE_SIZE: nat := 128

  /** Kinds share table slots. */
  function Slot(k: Kind): nat { k % TABLE_SIZE }

  // ---------------------------------------------------------------------
  // A map with a default
  // ---------------------------------------------------------------------

  /** Slots that were never modified on their own hold None and stand for the default. */
  datatype Table<V> = Table(def: V, slots: seq<Option<V>>, untouched: bool)
  {
    predicate Ok() { |slots| == TABLE_SIZE }

    function Get(k: Kind): V
      requires Ok()
    {
      if slots[Slot(k)].Some? then slots[Slot(k)].value else def
    }

    function Modify(k: Kind, f: V -> V): (t: Table<V>)
      requires Ok()
      ensures t.Ok() && !t.untouched
      ensures forall j :: t.Get(j) == if Slot(j) == Slot(k) then f(Get(j)) else Get(j)
    {
      Table(def, slots[Slot(k) := Some(f(Get(k)))], false)
    }

    function ModifyAll(f: V -> V): (t: Table<V>)
      requires Ok()
      ensures t.Ok() && !t.untouched
      ensures forall j :: t.Get(j) == f(Get(j))
    {
      Table(f(def), seq(TABLE_SIZE, i requires 0 <= i < TABLE_SIZE => if slots[i].Some? then Some(f(slots[i].value)) else None), false)
    }
  }

  function Blank<V>(def: V): (t: Table<V>)
    ensures t.Ok() && forall k :: t.Get(k) == def
  {
    Table(def, seq(TABLE_SIZE, _ => None), true)
  }

  /** The map as an object: a default value, and slots that either point at it or hold a value of their own. */
  class DefaultMap<V> {
    var def: V
    const map_: array<Option<V>>
    var untouched: bool

    ghost predicate Valid()
      reads this
    {
      map_.Length == TABLE_SIZE
    }

    ghost function Contents(): (t: Table<V>)
      requires Valid()
      reads this, map_
      ensures t.Ok()
    {
      Table(def, map_[..], untouched)
    }

    constructor (def: V)
      ensures Valid() && fresh(map_) && Contents() == Blank(def)
    {
      this.def := def;
      map_ := new Option<V>[TABLE_SIZE](_ => None);
      untouched := true;
      new;
      assert map_[..] == Blank(def).slots;
    }

    /** A map with the same contents and slots of its own. */
    constructor Copy(that: DefaultMap<V>)
      requires that.Valid()
      ensures Valid() && fresh(map_) && Contents() == that.Contents()
    {
      def := that.def;
      var slots := that.map_[..];
      map_ := new Option<V>[TABLE_SIZE](i requires 0 <= i < TABLE_SIZE => slots[i]);
      untouched := that.untouched;
      new;
      assert map_[..] == slots;
    }

    method Get(k: Kind) returns (v: V)
      requires Valid()
      ensures v == Contents().Get(k)
    {
      if map_[Slot(k)].Some? {
        return map_[Slot(k)].value;
      }
      return def;
    }

    /** Changes the value of a kind's slot, which starts out as a copy of the default. */
    method Modify(k: Kind, f: V -> V)
      requires Valid()
      modifies this, map_
      ensures Valid() && Contents() == old(Contents()).Modify(k, f)
    {
      untouched := false;
      var v := if map_[Slot(k)].Some? then map_[Slot(k)].value else def;
      map_[Slot(k)] := Some(f(v));
    }

    /** Changes every slot of its own and the default. */
    method ModifyAll(f: V -> V)
      requires Valid()
      modifies this, map_
      ensures Valid() && Contents() == old(Contents()).ModifyAll(f)
    {
      untouched := false;
      for i := 0 to TABLE_SIZE
        invariant Valid() && def == old(def) && untouched == false
        invariant forall j :: 0 <= j < i ==> map_[j] == old(Contents()).ModifyAll(f).slots[j]
        invariant forall j :: i <= j < TABLE_SIZE ==> map_[j] == old(map_[j])
      {
        if map_[i].Some? {
          map_[i] := Some(f(map_[i].value));
        }
      }
      def := f(def);
      assert map_[..] == old(Contents()).ModifyAll(f).slots;
    }

    /** Back to a map that was never modified. */
    method Clear(def: V)
      requires Valid()
      modifies this, map_
      ensures Valid() && Contents() == Blank(def)
    {
      untouched := true;
      for i := 0 to TABLE_SIZE
        invariant Valid() && untouched && forall j :: 0 <= j < i ==> map_[j] == None
      {
        map_[i] := None;
      }
      this.def := def;
      assert map_[..] == Blank(def).slots;
    }
  }

  // ---------------------------------------------------------------------
  // Sets in iteration order
  // ---------------------------------------------------------------------

  lemma {:induction false} HasLeast(s: set<Kind>) returns (m: Kind)
    requires s != {}
    ensures m in s && forall x :: x in s ==> m <= x
    decreases |s|
  {
    m :| m in s;
    if s - {m} != {} {
      var rest, first := s - {m}, m;
      var n := HasLeast(rest);
      m := if n < first then n else first;
      forall x | x in s
        ensures m <= x
      {
        assert x == first || x in rest;
      }
    }
  }

  function Least(s: set<Kind>): (m: Kind)
    requires s != {}
    ensures m in s && forall x :: x in s ==> m <= x
  {
    assert exists m :: m in s && forall x :: x in s ==> m <= x by {
      var m := HasLeast(s);
    }
    var m :| m in s && forall x :: x in s ==> m <= x;
    m
  }

  /** The members in ascending order. */
  function Sorted(s: set<Kind>): (list: seq<Kind>)
    ensures forall k :: k in list <==> k in s
    ensures s != {} ==> list != []
    decreases |s|
  {
    if s == {} then [] else [Least(s)] + Sorted(s - {Least(s)})
  }

  // ---------------------------------------------------------------------
  // The index
  // ---------------------------------------------------------------------

  type RuleList = seq<nat>
  type StartTable = Table<RuleList>
  type RuleTable = Table<StartTable>

  const NO_RULES: RuleTable := Blank(Blank([]))

  function AppendTo(rule: nat): RuleList -> RuleList { v => v + [rule] }

  /** The rule is added for each of the start kinds. */
  function AddStarts(t: StartTable, rule: nat, starts: seq<Kind>): StartTable
    requires t.Ok()
    decreases |starts|
  {
    if starts == [] then t else AddStarts(t.Modify(starts[0], AppendTo(rule)), rule, starts[1..])
  }

  /** The rule is added under one parent: to every start if its check names none or lets it consume nothing. */
  function AddUnder(t: StartTable, rule: nat, fast: FastPattern): StartTable
    requires t.Ok()
  {
    if fast.starts == {} || fast.passThrough then t.ModifyAll(AppendTo(rule)) else AddStarts(t, rule, Sorted(fast.starts))
  }

  /** AddUnder on every table, whatever its size. */
  function Adder(rule: nat, fast: FastPattern): StartTable -> StartTable
  {
    (t: StartTable) => if t.Ok() then AddUnder(t, rule, fast) else t
  }

  function AddParents(m: RuleTable, rule: nat, fast: FastPattern, parents: seq<Kind>): RuleTable
    requires m.Ok()
    decreases |parents|
  {
    if parents == [] then m else AddParents(m.Modify(parents[0], Adder(rule, fast)), rule, fast, parents[1..])
  }

  function AddRule(m: RuleTable, rule: nat, fast: FastPattern): RuleTable
    requires m.Ok()
  {
    if fast.parents == {} then m.ModifyAll(Adder(rule, fast)) else AddParents(m, rule, fast, Sorted(fast.parents))
  }

  /** The index of the first `n` rules. */
  function IndexOf(checks: seq<FastPattern>, n: nat): (m: RuleTable)
    requires n <= |checks|
    ensures m.Ok()
  {
    if n == 0 then NO_RULES
    else
      var m := IndexOf(checks, n - 1);
      AddRuleOk(m, n - 1, checks[n - 1]);
      AddRule(m, n - 1, checks[n - 1])
  }

  lemma {:induction false} AddParentsOk(m: RuleTable, rule: nat, fast: FastPattern, parents: seq<Kind>)
    requires m.Ok()
    ensures AddParents(m, rule, fast, parents).Ok()
    decreases |parents|
  {
    if parents != [] {
      AddParentsOk(m.Modify(parents[0], Adder(rule, fast)), rule, fast, parents[1..]);
    }
  }

  lemma AddRuleOk(m: RuleTable, rule: nat, fast: FastPattern)
    requires m.Ok()
    ensures AddRule(m, rule, fast).Ok()
  {
    AddParentsOk(m, rule, fast, Sorted(fast.parents));
  }

  // ---------------------------------------------------------------------
  // What the index lists
  // ---------------------------------------------------------------------

  function Repeat(rule: nat, n: nat): RuleList
  {
    if n == 0 then [] else Repeat(rule, n - 1) + [rule]
  }

  predicate StartApplies(fast: FastPattern, start: Kind)
  {
    fast.starts == {} || fast.passThrough || exists s :: s in fast.starts && Slot(s) == Slot(start)
  }

  predicate ParentApplies(fast: FastPattern, parent: Kind)
  {
    fast.parents == {} || exists p :: p in fast.parents && Slot(p) == Slot(parent)
  }

  /** `more` is `list` followed by the rule, once or several times if it applies. */
  ghost predicate Grows(list: RuleList, more: RuleList, rule: nat, applies: bool)
  {
    exists n: nat :: more == list + Repeat(rule, n) && (n > 0 <==> applies)
  }

  lemma RepeatOn(list: RuleList, rule: nat, n: nat, k: nat)
    ensures list + Repeat(rule, n) + Repeat(rule, k) == list + Repeat(rule, n + k)
  {
    if k > 0 {
      RepeatOn(list, rule, n, k - 1);
      assert Repeat(rule, n + k) == Repeat(rule, n + k - 1) + [rule];
      assert list + Repeat(rule, n) + (Repeat(rule, k - 1) + [rule]) == list + Repeat(rule, n) + Repeat(rule, k - 1) + [rule];
    } else {
      assert list + Repeat(rule, n) + [] == list + Repeat(rule, n);
    }
  }

  lemma GrowsOnce(list: RuleList, rule: nat)
    ensures Grows(list, list + [rule], rule, true) && Grows(list, list, rule, false)
  {
    assert Repeat(rule, 1) == [] + [rule];
    assert list + Repeat(rule, 1) == list + [rule] && list + Repeat(rule, 0) == list;
  }

  lemma GrowsOn(a: RuleList, b: RuleList, c: RuleList, rule: nat, x: bool, y: bool)
    requires Grows(a, b, rule, x) && Grows(b, c, rule, y)
    ensures Grows(a, c, rule, x || y)
  {
    var n: nat :| b == a + Repeat(rule, n) && (n > 0 <==> x);
    var k: nat :| c == b + Repeat(rule, k) && (k > 0 <==> y);
    RepeatOn(a, rule, n, k);
  }

  predicate AnyInSlot(kinds: seq<Kind>, k: Kind)
  {
    exists j :: 0 <= j < |kinds| && Slot(kinds[j]) == Slot(k)
  }

  lemma {:induction false} AddStartsGrows(t: StartTable, rule: nat, starts: seq<Kind>, k: Kind)
    requires t.Ok()
    ensures AddStarts(t, rule, starts).Ok() && (starts != [] ==> !AddStarts(t, rule, starts).untouched)
    ensures Grows(t.Get(k), AddStarts(t, rule, starts).Get(k), rule, AnyInSlot(starts, k))
    decreases |starts|
  {
    GrowsOnce(t.Get(k), rule);
    if starts != [] {
      var t' := t.Modify(starts[0], AppendTo(rule));
      AddStartsGrows(t', rule, starts[1..], k);
      GrowsOn(t.Get(k), t'.Get(k), AddStarts(t, rule, starts).Get(k), rule, Slot(starts[0]) == Slot(k), AnyInSlot(starts[1..], k));
      AnyInSlotRest(starts, k);
      if |starts| == 1 {
        assert starts[1..] == [];
      }
    }
  }

  lemma SortedSlots(s: set<Kind>, k: Kind)
    ensures AnyInSlot(Sorted(s), k) <==> exists x :: x in s && Slot(x) == Slot(k)
  {
    var list := Sorted(s);
    if x :| x in s && Slot(x) == Slot(k) {
      assert x in list;
      var j :| 0 <= j < |list| && list[j] == x;
    }
    if j :| 0 <= j < |list| && Slot(list[j]) == Slot(k) {
      assert list[j] in s;
    }
  }

  lemma AddUnderGrows(t: StartTable, rule: nat, fast: FastPattern, k: Kind)
    requires t.Ok()
    ensures AddUnder(t, rule, fast).Ok() && !AddUnder(t, rule, fast).untouched
    ensures Grows(t.Get(k), AddUnder(t, rule, fast).Get(k), rule, StartApplies(fast, k))
  {
    if fast.starts == {} || fast.passThrough {
      GrowsOnce(t.Get(k), rule);
    } else {
      AddStartsGrows(t, rule, Sorted(fast.starts), k);
      SortedSlots(fast.starts, k);
    }
  }

  /** The table under a parent is well-formed, and lists nothing while it is marked as untouched. */
  ghost predicate Proper(m: RuleTable, p: Kind)
  {
    m.Ok() && m.Get(p).Ok() && (m.Get(p).untouched ==> forall k :: m.Get(p).Get(k) == [])
  }

  /** Under `p` the rule has been added at `k` if it `applies`, and nothing has changed otherwise. */
  ghost predicate Extended(m: RuleTable, m': RuleTable, rule: nat, p: Kind, k: Kind, applies: bool)
    requires Proper(m, p) && Proper(m', p)
  {
    Grows(m.Get(p).Get(k), m'.Get(p).Get(k), rule, applies)
  }

  lemma ModifyExtends(m: RuleTable, rule: nat, fast: FastPattern, parent: Kind, p: Kind, k: Kind)
    requires Proper(m, p)
    ensures Proper(m.Modify(parent, Adder(rule, fast)), p)
    ensures Extended(m, m.Modify(parent, Adder(rule, fast)), rule, p, k, Slot(p) == Slot(parent) && StartApplies(fast, k))
  {
    AddUnderGrows(m.Get(p), rule, fast, k);
    GrowsOnce(m.Get(p).Get(k), rule);
    var m' := m.Modify(parent, Adder(rule, fast));
    assert m'.Get(p) == if Slot(p) == Slot(parent) then AddUnder(m.Get(p), rule, fast) else m.Get(p);
  }

  lemma ModifyAllExtends(m: RuleTable, rule: nat, fast: FastPattern, p: Kind, k: Kind)
    requires Proper(m, p)
    ensures Proper(m.ModifyAll(Adder(rule, fast)), p)
    ensures Extended(m, m.ModifyAll(Adder(rule, fast)), rule, p, k, StartApplies(fast, k))
  {
    AddUnderGrows(m.Get(p), rule, fast, k);
    assert m.ModifyAll(Adder(rule, fast)).Get(p) == AddUnder(m.Get(p), rule, fast);
  }

  lemma AnyInSlotRest(kinds: seq<Kind>, k: Kind)
    requires kinds != []
    ensures AnyInSlot(kinds, k) <==> Slot(kinds[0]) == Slot(k) || AnyInSlot(kinds[1..], k)
  {
    if j :| 0 <= j < |kinds| && Slot(kinds[j]) == Slot(k) {
      assert j > 0 ==> kinds[1..][j - 1] == kinds[j];
    }
    if j :| 0 <= j < |kinds[1..]| && Slot(kinds[1..][j]) == Slot(k) {
      assert kinds[j + 1] == kinds[1..][j];
    }
  }

  lemma {:induction false} AddParentsExtends(m: RuleTable, rule: nat, fast: FastPattern, parents: seq<Kind>, p: Kind, k: Kind)
    requires Proper(m, p)
    ensures Proper(AddParents(m, rule, fast, parents), p)
    ensures Extended(m, AddParents(m, rule, fast, parents), rule, p, k, AnyInSlot(parents, p) && StartApplies(fast, k))
    decreases |parents|
  {
    GrowsOnce(m.Get(p).Get(k), rule);
    if parents != [] {
      var m' := m.Modify(parents[0], Adder(rule, fast));
      var m'' := AddParents(m', rule, fast, parents[1..]);
      ModifyExtends(m, rule, fast, parents[0], p, k);
      AddParentsExtends(m', rule, fast, parents[1..], p, k);
      AnyInSlotRest(parents, p);
      GrowsOn(m.Get(p).Get(k), m'.Get(p).Get(k), m''.Get(p).Get(k), rule,
              Slot(p) == Slot(parents[0]) && StartApplies(fast, k), AnyInSlot(parents[1..], p) && StartApplies(fast, k));
    }
  }

  predicate Applies(fast: FastPattern, p: Kind, k: Kind)
  {
    ParentApplies(fast, p) && StartApplies(fast, k)
  }

  /** Adding a rule lists it, last, wherever its check applies, and changes no other list. */
  lemma AddRuleExtends(m: RuleTable, rule: nat, fast: FastPattern, p: Kind, k: Kind)
    requires Proper(m, p)
    ensures Proper(AddRule(m, rule, fast), p)
    ensures Extended(m, AddRule(m, rule, fast), rule, p, k, Applies(fast, p, k))
  {
    if fast.parents == {} {
      ModifyAllExtends(m, rule, fast, p, k);
    } else {
      AddParentsExtends(m, rule, fast, Sorted(fast.parents), p, k);
      SortedSlots(fast.parents, p);
    }
  }

  /** The list holds the applicable ones of the first `n` rules in order, each at least once in a row. */
  ghost predicate ListsApplicable(list: RuleList, checks: seq<FastPattern>, n: nat, p: Kind, k: Kind)
    requires n <= |checks|
    decreases n, |checks|
  {
    if n == 0 then list == []
    else
      var last: nat := n - 1;
      exists front: RuleList :: ListsApplicable(front, checks, last, p, k) && Grows(front, list, last, Applies(checks[last], p, k))
  }

  lemma NothingListed(p: Kind, k: Kind)
    ensures Proper(NO_RULES, p) && NO_RULES.Get(p).Get(k) == []
  {
    var inner: StartTable := Blank([]);
    assert NO_RULES.Get(p) == inner;
  }

  lemma ListedNext(front: RuleList, list: RuleList, checks: seq<FastPattern>, n: nat, p: Kind, k: Kind)
    requires 0 < n <= |checks| && ListsApplicable(front, checks, n - 1, p, k)
    requires Grows(front, list, n - 1, Applies(checks[n - 1], p, k))
    ensures ListsApplicable(list, checks, n, p, k)
  {
  }

  lemma {:induction false} AddRuleLists(before: RuleTable, checks: seq<FastPattern>, n: nat, p: Kind, k: Kind)
    requires 0 < n <= |checks| && Proper(before, p) && ListsApplicable(before.Get(p).Get(k), checks, n - 1, p, k)
    ensures var after := AddRule(before, n - 1, checks[n - 1]);
            Proper(after, p) && ListsApplicable(after.Get(p).Get(k), checks, n, p, k)
  {
    AddRuleExtends(before, n - 1, checks[n - 1], p, k);
    ListedNext(before.Get(p).Get(k), AddRule(before, n - 1, checks[n - 1]).Get(p).Get(k), checks, n, p, k);
  }

  /** The list under any parent and start, kinds sharing slots or not. */
  lemma {:induction false} IndexLists(checks: seq<FastPattern>, n: nat, p: Kind, k: Kind)
    requires n <= |checks|
    ensures Proper(IndexOf(checks, n), p) && ListsApplicable(IndexOf(checks, n).Get(p).Get(k), checks, n, p, k)
  {
    if n == 0 {
      NothingListed(p, k);
    } else {
      IndexLists(checks, n - 1, p, k);
      AddRuleLists(IndexOf(checks, n - 1), checks, n, p, k);
    }
  }

  // ---------------------------------------------------------------------
  // The first rule to fire
  // ---------------------------------------------------------------------

  lemma {:induction false} RepeatMembers(rule: nat, n: nat)
    ensures |Repeat(rule, n)| == n && forall j :: 0 <= j < n ==> Repeat(rule, n)[j] == rule
  {
    if n > 0 {
      RepeatMembers(rule, n - 1);
    }
  }

  lemma AppendedMembers(front: RuleList, rule: nat, c: nat)
    ensures forall r :: r in front + Repeat(rule, c) <==> r in front || (c > 0 && r == rule)
  {
    RepeatMembers(rule, c);
    assert c > 0 ==> Repeat(rule, c)[0] == rule;
  }

  /** The list is in order and has exactly the applicable rules as members. */
  lemma AppendedInOrder(front: RuleList, last: nat, c: nat)
    requires (forall i, j :: 0 <= i < j < |front| ==> front[i] <= front[j]) && forall r: nat :: r in front ==> r <= last
    requires forall r: nat :: r in Repeat(last, c) ==> r == last
    ensures var list := front + Repeat(last, c); forall i, j :: 0 <= i < j < |list| ==> list[i] <= list[j]
  {
    var list := front + Repeat(last, c);
    forall i, j | 0 <= i < j < |list|
      ensures list[i] <= list[j]
    {
      if i < |front| {
        assert list[i] in front;
      } else {
        assert list[i] in Repeat(last, c);
      }
      if j >= |front| {
        assert list[j] in Repeat(last, c);
      }
    }
  }

  lemma {:induction false} ListedInOrder(list: RuleList, checks: seq<FastPattern>, n: nat, p: Kind, k: Kind)
    requires n <= |checks| && ListsApplicable(list, checks, n, p, k)
    ensures forall r: nat :: r in list <==> r < n && Applies(checks[r], p, k)
    ensures forall i, j :: 0 <= i < j < |list| ==> list[i] <= list[j]
    decreases n
  {
    if n > 0 {
      var last: nat := n - 1;
      var front: RuleList :| ListsApplicable(front, checks, last, p, k) && Grows(front, list, last, Applies(checks[last], p, k));
      var c: nat :| list == front + Repeat(last, c) && (c > 0 <==> Applies(checks[last], p, k));
      ListedInOrder(front, checks, last, p, k);
      RepeatMembers(last, c);
      AppendedMembers(front, last, c);
      AppendedInOrder(front, last, c);
    }
  }

  /** The first listed rule that fires. */
  ghost predicate FirstListed(list: RuleList, fires: nat -> bool, r: Option<nat>)
  {
    match r
    case None => forall j :: 0 <= j < |list| ==> !fires(list[j])
    case Some(x) => exists j :: 0 <= j < |list| && list[j] == x && fires(x) && forall i :: 0 <= i < j ==> !fires(list[i])
  }

  /** The first of all `n` rules that fires. */
  ghost predicate FirstOfAll(n: nat, fires: nat -> bool, r: Option<nat>)
  {
    match r
    case None => forall k: nat :: k < n ==> !fires(k)
    case Some(x) => x < n && fires(x) && forall k: nat :: k < x ==> !fires(k)
  }

  /** Looking only at the listed rules finds the rule that a scan of all rules would find. */
  lemma {:induction false} IndexFindsFirst(list: RuleList, checks: seq<FastPattern>, n: nat, p: Kind, k: Kind, fires: nat -> bool, r: Option<nat>)
    requires n <= |checks| && ListsApplicable(list, checks, n, p, k)
    requires forall x: nat :: x < n && fires(x) ==> Applies(checks[x], p, k)
    requires FirstListed(list, fires, r)
    ensures FirstOfAll(n, fires, r)
  {
    ListedInOrder(list, checks, n, p, k);
    match r
    case None =>
      forall x: nat | x in list
        ensures !fires(x)
      {
        var j :| 0 <= j < |list| && list[j] == x;
      }
    case Some(y) =>
      var j :| 0 <= j < |list| && list[j] == y && fires(y) && forall i :: 0 <= i < j ==> !fires(list[i]);
      assert y in list;
      forall x: nat | x in list && x < y
        ensures !fires(x)
      {
        var i :| 0 <= i < |list| && list[i] == x;
        assert i < j;
      }
  }

  /** A check that allows a place applies at it. */
  lemma AllowsApplies(f: FastPattern, p: Kind, k: Kind)
    requires f.Allows(p, k)
    ensures Applies(f, p, k)
  {
    assert p in f.parents ==> exists x :: x in f.parents && Slot(x) == Slot(p);
    assert k in f.starts ==> exists x :: x in f.starts && Slot(x) == Slot(k);
  }

  // ---------------------------------------------------------------------
  // A pass
  // ---------------------------------------------------------------------

  /** What takes the place of the matched children; `reapply` asks to match at the same place again. */
  datatype Change = Change(replacement: seq<Tree>, reapply: bool)

  /**
   * What rules do: the change that a rule's effect builds from the captures,
   * or None where it changes nothing; which trees hold an error; and which
   * kinds, Error and Lift, are not entered.
   */
  datatype Effects = Effects(apply: (nat, Env) -> Option<Change>, hasError: Tree -> bool, internal: Kind -> bool)

  /** A pattern the matcher may be given, with a check that is sound for it. */
  ghost predicate Ready(o: Oracle, q: Pattern)
  {
    Legal(q.chain) && Honest(q.chain) && Productive(q.chain) && Sound(o, q)
  }

  function Checks(patterns: seq<Pattern>): (checks: seq<FastPattern>)
    ensures |checks| == |patterns|
  {
    seq(|patterns|, i requires 0 <= i < |patterns| => patterns[i].fast)
  }

  /** The matched stretch holds no error, so it may be replaced. */
  predicate Clean(fx: Effects, p: Parent, i: nat, end: nat)
    requires i <= end <= |p.children|
  {
    forall j :: i <= j < end ==> !fx.hasError(p.children[j])
  }

  /** The rule's pattern matches at child `i` and its effect changes something. */
  ghost predicate Fires(o: Oracle, fx: Effects, patterns: seq<Pattern>, p: Parent, i: nat, r: nat)
    requires i < |p.children|
  {
    r < |patterns| &&
    match MatchChain(o, patterns[r].chain, p, i, map[])
    case Fail => false
    case Success(end, env) => Clean(fx, p, i, end) && fx.apply(r, env).Some?
  }

  ghost function Firing(o: Oracle, fx: Effects, patterns: seq<Pattern>, p: Parent, i: nat): nat -> bool
    requires i < |p.children|
  {
    (r: nat) => i < |p.children| && Fires(o, fx, patterns, p, i, r)
  }

  /** A rule that fires is one the index lists at that place. */
  lemma FiringApplies(o: Oracle, fx: Effects, patterns: seq<Pattern>, p: Parent, i: nat, r: nat)
    requires i < |p.children| && (forall q :: q in patterns ==> Ready(o, q)) && Fires(o, fx, patterns, p, i, r)
    ensures Applies(Checks(patterns)[r], p.kind, p.children[i].kind)
  {
    assert patterns[r] in patterns;
    SoundAllows(o, patterns[r], p, i, map[]);
    AllowsApplies(patterns[r].fast, p.kind, p.children[i].kind);
  }

  /** The stretch and the change are those of the rule. */
  ghost predicate ChangeOf(o: Oracle, fx: Effects, patterns: seq<Pattern>, p: Parent, i: nat, r: nat, end: nat, change: Change)
    requires i < |p.children|
  {
    r < |patterns| &&
    match MatchChain(o, patterns[r].chain, p, i, map[])
    case Fail => false
    case Success(e, env) => end == e && fx.apply(r, env) == Some(change)
  }

  /** Tries the listed rules in order and stops at the first one that fires. */
  method TryListed(o: Oracle, fx: Effects, patterns: seq<Pattern>, list: RuleList, p: Parent, i: nat, m: MatchFrames.Match)
    returns (rule: Option<nat>, end: nat, change: Change)
    requires (forall q :: q in patterns ==> Ready(o, q)) && i < |p.children| && m.Valid()
    requires forall r :: r in list ==> r < |patterns|
    modifies m
    ensures m.Valid()
    ensures FirstListed(list, Firing(o, fx, patterns, p, i), rule)
    ensures rule.Some? ==> ChangeOf(o, fx, patterns, p, i, rule.value, end, change)
  {
    ghost var fires := Firing(o, fx, patterns, p, i);
    rule, end, change := None, i, Change([], false);
    for j := 0 to |list|
      invariant m.Valid() && forall k :: 0 <= k < j ==> !fires(list[k])
    {
      assert list[j] in list;
      var r := list[j];
      assert patterns[r] in patterns;
      var ok, e := TryPattern(o, patterns[r].chain, p, i, m);
      if ok && Clean(fx, p, i, e) {
        var built := fx.apply(r, View(m.State()));
        if built.Some? {
          assert fires(r);
          return Some(r), e, built.value;
        }
      }
    }
  }

  class Pass {
    const patterns: seq<Pattern>
    const ruleMap: DefaultMap<StartTable>

    ghost predicate Compiled()
      reads this, ruleMap, ruleMap.map_
    {
      ruleMap.Valid() && ruleMap.Contents() == IndexOf(Checks(patterns), |patterns|)
    }

    constructor (patterns: seq<Pattern>)
      ensures Compiled() && this.patterns == patterns && fresh(ruleMap) && fresh(ruleMap.map_)
    {
      this.patterns := patterns;
      ruleMap := new DefaultMap<StartTable>(Blank([]));
      new;
      CompileRules();
    }

    /** Fills the index rule by rule. */
    method CompileRules()
      requires ruleMap.Valid()
      modifies ruleMap, ruleMap.map_
      ensures Compiled()
    {
      ruleMap.Clear(Blank([]));
      ghost var checks := Checks(patterns);
      for i := 0 to |patterns|
        invariant ruleMap.Valid() && ruleMap.Contents() == IndexOf(checks, i)
      {
        var fast := patterns[i].fast;
        AddRuleOk(ruleMap.Contents(), i, fast);
        if fast.parents == {} {
          ruleMap.ModifyAll(Adder(i, fast));
        } else {
          AddToParents(i, fast);
        }
      }
    }

    method AddToParents(rule: nat, fast: FastPattern)
      requires ruleMap.Valid()
      modifies ruleMap, ruleMap.map_
      ensures ruleMap.Valid() && ruleMap.Contents() == AddParents(old(ruleMap.Contents()), rule, fast, Sorted(fast.parents))
    {
      var rest := Sorted(fast.parents);
      while rest != []
        invariant ruleMap.Valid()
        invariant AddParents(ruleMap.Contents(), rule, fast, rest) ==
                  AddParents(old(ruleMap.Contents()), rule, fast, Sorted(fast.parents))
        decreases |rest|
      {
        ruleMap.Modify(rest[0], Adder(rule, fast));
        rest := rest[1..];
      }
    }

    /**
     * Tries the rules the index lists for child `i` and stops at the first one
     * that fires. It is the rule a scan of all rules would have stopped at.
     */
    method SelectRule(o: Oracle, fx: Effects, p: Parent, i: nat, m: MatchFrames.Match)
      returns (rule: Option<nat>, end: nat, change: Change)
      requires Compiled() && (forall q :: q in patterns ==> Ready(o, q)) && i < |p.children| && m.Valid()
      modifies m
      ensures m.Valid()
      ensures FirstOfAll(|patterns|, Firing(o, fx, patterns, p, i), rule)
      ensures rule.Some? ==> ChangeOf(o, fx, patterns, p, i, rule.value, end, change)
    {
      var kind := p.children[i].kind;
      ghost var checks, n := Checks(patterns), |patterns|;
      IndexLists(checks, n, p.kind, kind);
      var table := ruleMap.Get(p.kind);
      var list := if table.untouched then [] else table.Get(kind);
      ListedInOrder(list, checks, n, p.kind, kind);
      rule, end, change := TryListed(o, fx, patterns, list, p, i, m);
      forall x: nat | x < n && Fires(o, fx, patterns, p, i, x)
        ensures Applies(checks[x], p.kind, kind)
      {
        FiringApplies(o, fx, patterns, p, i, x);
      }
      IndexFindsFirst(list, checks, n, p.kind, kind, Firing(o, fx, patterns, p, i), rule);
    }
  }
}
