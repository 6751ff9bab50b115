// What captures mean: every reported span is a stretch that the group's own
// sub-expression matches.

module CaptureSpans {
  import opened Options
  import opened RegexSemantics

  /** The sub-expressions that group `id` stands for in `r`. Expanded repetitions contain copies of one group. */
  function GroupBodies(r: Regex, id: nat): set<Regex>
  {
    match r
    case Leaf(_) => {}
    case Concat(a, b) => GroupBodies(a, id) + GroupBodies(b, id)
    case Either(a, b) => GroupBodies(a, id) + GroupBodies(b, id)
    case Repeat(_, _, a) => GroupBodies(a, id)
    case Group(k, a) => GroupBodies(a, id) + if k == id then {a} else {}
  }

  /** All groups numbered `id` are copies of one group, which does not contain itself. */
  ghost predicate IsGroup(r: Regex, id: nat, body: Regex)
  {
    GroupBodies(r, id) <= {body} && GroupBodies(body, id) == {}
  }

  /** The two slots hold the ends of a stretch between `i` and `j` that `body` matches. */
  ghost predicate IsSpan(body: Regex, t: Subject, i: nat, j: nat, start: Option<nat>, end: Option<nat>)
    requires t.Valid()
  {
    exists p, q :: i <= p <= q <= j && q <= |t.runes| && Matches(body, t, p, q) &&
                   start == Some(t.offsets[p]) && end == Some(t.offsets[q])
  }

  ghost predicate Kept(c: Captures, d: Captures, id: nat)
    requires 2 * id + 1 < |c| && |c| == |d|
  {
    d[2 * id] == c[2 * id] && d[2 * id + 1] == c[2 * id + 1]
  }

  /** A match leaves a group's slots alone or records a span of that group. */
  ghost predicate KeptOrSpan(body: Regex, t: Subject, i: nat, c: Captures, j: nat, d: Captures, id: nat)
    requires t.Valid()
  {
    2 * id + 1 < |c| && |c| == |d| && i <= j <= |t.runes| &&
    (Kept(c, d, id) || IsSpan(body, t, i, j, d[2 * id], d[2 * id + 1]))
  }

  lemma KeptOrSpanTrans(body: Regex, t: Subject, i: nat, c: Captures, k: nat, m: Captures, j: nat, d: Captures, id: nat)
    requires t.Valid() && KeptOrSpan(body, t, i, c, k, m, id) && KeptOrSpan(body, t, k, m, j, d, id)
    ensures KeptOrSpan(body, t, i, c, j, d, id)
  {
  }

  lemma {:induction false} CapturedSpans(r: Regex, t: Subject, i: nat, c: Captures, j: nat, d: Captures, id: nat, body: Regex)
    requires t.Valid() && Captured(r, t, i, c, j, d) && 2 * id + 1 < |c|
    requires IsGroup(r, id, body)
    ensures KeptOrSpan(body, t, i, c, j, d, id)
    decreases r, 0
  {
    CapturedMatches(r, t, i, c, j, d);
    MatchesInRange(r, t, i, j);
    match r
    case Leaf(_) =>
    case Concat(a, b) =>
      var k, m :| Captured(a, t, i, c, k, m) && Captured(b, t, k, m, j, d);
      CapturedSpans(a, t, i, c, k, m, id, body);
      CapturedSpans(b, t, k, m, j, d, id, body);
      KeptOrSpanTrans(body, t, i, c, k, m, j, d, id);
    case Either(a, b) =>
      if Captured(a, t, i, c, j, d) {
        CapturedSpans(a, t, i, c, j, d, id, body);
      } else {
        CapturedSpans(b, t, i, c, j, d, id, body);
      }
    case Repeat(_, _, a) =>
      if Captured(a, t, i, c, j, d) {
        CapturedSpans(a, t, i, c, j, d, id, body);
      } else if r.kind.ZeroOrMore? {
        var n: nat :| CapturedPower(a, n, t, i, c, j, d);
        PowerSpans(a, n, t, i, c, j, d, id, body);
      } else if r.kind.OneOrMore? {
        var n: nat :| n >= 1 && CapturedPower(a, n, t, i, c, j, d);
        PowerSpans(a, n, t, i, c, j, d, id, body);
      }
    case Group(k, a) =>
      var c1 := SetSlot(c, 2 * k, t.offsets[i]);
      var m :| Captured(a, t, i, c1, j, m) && d == SetSlot(m, 2 * k + 1, t.offsets[j]);
      CapturedMatches(a, t, i, c1, j, m);
      if k == id {
        assert a in GroupBodies(r, id);
        GroupKeeps(a, t, i, c1, j, m, id);
      } else {
        CapturedSpans(a, t, i, c1, j, m, id, body);
      }
  }

  lemma {:induction false} PowerSpans(r: Regex, n: nat, t: Subject, i: nat, c: Captures, j: nat, d: Captures, id: nat, body: Regex)
    requires t.Valid() && CapturedPower(r, n, t, i, c, j, d) && 2 * id + 1 < |c|
    requires IsGroup(r, id, body)
    ensures KeptOrSpan(body, t, i, c, j, d, id)
    decreases r, n + 1
  {
    if n > 0 {
      var k, m :| Captured(r, t, i, c, k, m) && CapturedPower(r, n - 1, t, k, m, j, d);
      CapturedSpans(r, t, i, c, k, m, id, body);
      PowerSpans(r, n - 1, t, k, m, j, d, id, body);
      KeptOrSpanTrans(body, t, i, c, k, m, j, d, id);
    }
  }

  /** A regex without the group does not touch its slots. */
  lemma {:induction false} GroupKeeps(r: Regex, t: Subject, i: nat, c: Captures, j: nat, d: Captures, id: nat)
    requires t.Valid() && Captured(r, t, i, c, j, d) && 2 * id + 1 < |c|
    requires GroupBodies(r, id) == {}
    ensures |c| == |d| && Kept(c, d, id)
    decreases r, 0
  {
    CapturedMatches(r, t, i, c, j, d);
    match r
    case Leaf(_) =>
    case Concat(a, b) =>
      var k, m :| Captured(a, t, i, c, k, m) && Captured(b, t, k, m, j, d);
      GroupKeeps(a, t, i, c, k, m, id);
      GroupKeeps(b, t, k, m, j, d, id);
    case Either(a, b) =>
      if Captured(a, t, i, c, j, d) { GroupKeeps(a, t, i, c, j, d, id); } else { GroupKeeps(b, t, i, c, j, d, id); }
    case Repeat(_, _, a) =>
      if Captured(a, t, i, c, j, d) {
        GroupKeeps(a, t, i, c, j, d, id);
      } else if r.kind.ZeroOrMore? {
        var n: nat :| CapturedPower(a, n, t, i, c, j, d);
        PowerKeeps(a, n, t, i, c, j, d, id);
      } else if r.kind.OneOrMore? {
        var n: nat :| n >= 1 && CapturedPower(a, n, t, i, c, j, d);
        PowerKeeps(a, n, t, i, c, j, d, id);
      }
    case Group(k, a) =>
      assert k == id ==> a in GroupBodies(r, id);
      var c1 := SetSlot(c, 2 * k, t.offsets[i]);
      var m :| Captured(a, t, i, c1, j, m) && d == SetSlot(m, 2 * k + 1, t.offsets[j]);
      GroupKeeps(a, t, i, c1, j, m, id);
  }

  lemma {:induction false} PowerKeeps(r: Regex, n: nat, t: Subject, i: nat, c: Captures, j: nat, d: Captures, id: nat)
    requires t.Valid() && CapturedPower(r, n, t, i, c, j, d) && 2 * id + 1 < |c|
    requires GroupBodies(r, id) == {}
    ensures |c| == |d| && Kept(c, d, id)
    decreases r, n + 1
  {
    if n > 0 {
      var k, m :| Captured(r, t, i, c, k, m) && CapturedPower(r, n - 1, t, k, m, j, d);
      GroupKeeps(r, t, i, c, k, m, id);
      PowerKeeps(r, n - 1, t, k, m, j, d, id);
    }
  }

  /** Starting from unset captures, each group ends wholly unset or as a span of its own matches. */
  lemma UnsetOrSpan(r: Regex, t: Subject, c: Captures, j: nat, d: Captures, id: nat, body: Regex)
    requires t.Valid() && Captured(r, t, 0, c, j, d) && 2 * id + 1 < |c|
    requires forall k :: 0 <= k < |c| ==> c[k] == None
    requires IsGroup(r, id, body)
    ensures |d| == |c|
    ensures (d[2 * id] == None && d[2 * id + 1] == None) || IsSpan(body, t, 0, j, d[2 * id], d[2 * id + 1])
  {
    CapturedSpans(r, t, 0, c, j, d, id, body);
  }
}
