// Which regexes match the empty string, and under which boundary conditions.

module EmptyMatches {
  import opened Options
  import opened RegexSemantics

  /** Whether a regex matches without consuming a rune where the conditions `f` hold. */
  predicate Nullable(r: Regex, f: Flags)
  {
    match r
    case Leaf(tag) => !tag.IsTerminal() && Passes(tag, f)
    case Concat(a, b) => Nullable(a, f) && Nullable(b, f)
    case Either(a, b) => Nullable(a, f) || Nullable(b, f)
    case Repeat(kind, _, a) => !kind.OneOrMore? || Nullable(a, f)
    case Group(_, a) => Nullable(a, f)
  }

  predicate NullablePattern(r: Option<Regex>, f: Flags)
  {
    r.None? || Nullable(r.value, f)
  }

  lemma {:induction false} NullableMatches(r: Regex, t: Subject, i: nat)
    requires i <= |t.runes|
    ensures Matches(r, t, i, i) <==> Nullable(r, FlagsAt(t, i))
    decreases r, 1
  {
    match r
    case Leaf(_) =>
    case Concat(a, b) =>
      NullableMatches(a, t, i);
      NullableMatches(b, t, i);
      if k :| Matches(a, t, i, k) && Matches(b, t, k, i) {
        MatchesInRange(a, t, i, k);
        MatchesInRange(b, t, k, i);
      }
    case Either(a, b) =>
      NullableMatches(a, t, i);
      NullableMatches(b, t, i);
    case Repeat(kind, lazy, a) => RepeatNullable(kind, lazy, a, t, i);
    case Group(_, a) => NullableMatches(a, t, i);
  }

  lemma {:induction false} RepeatNullable(kind: RepeatKind, lazy: bool, a: Regex, t: Subject, i: nat)
    requires i <= |t.runes|
    ensures Matches(Repeat(kind, lazy, a), t, i, i) <==> Nullable(Repeat(kind, lazy, a), FlagsAt(t, i))
    decreases Repeat(kind, lazy, a), 0
  {
    match kind
    case ZeroOrOne =>
    case ZeroOrMore => assert Power(a, 0, t, i, i);
    case OneOrMore =>
      NullableMatches(a, t, i);
      if Matches(a, t, i, i) {
        assert Power(a, 0, t, i, i);
        assert Power(a, 1, t, i, i);
      }
      if n: nat :| n >= 1 && Power(a, n, t, i, i) {
        EmptyRound(a, n, t, i);
      }
  }

  lemma EmptyRound(a: Regex, n: nat, t: Subject, i: nat)
    requires n >= 1 && Power(a, n, t, i, i)
    ensures Matches(a, t, i, i)
  {
    var k :| Matches(a, t, i, k) && Power(a, n - 1, t, k, i);
    MatchesInRange(a, t, i, k);
    PowerInRange(a, n - 1, t, k, i);
  }

  /** A text before whose first rune the given conditions hold. */
  function TextWith(f: Flags, t: Subject): (s: Subject)
    ensures s.Valid() && s.classes == t.classes && FlagsAt(s, 0) == f
  {
    if f.atEnd then Subject(t.classes, [], [0], f.atStart, f.boundary)
    else Subject(t.classes, [0], [0, 1], f.atStart, f.boundary)
  }
}
