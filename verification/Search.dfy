// Searching anywhere in a string and replacing all matches: search in
// regex_engine.h and GlobalReplace in regex.h.

module Search {
  import opened Options
  import opened Utf8
  import opened RuneClasses
  import opened RegexSemantics
  import opened Postfix
  import opened Repetition
  import opened Engine
  import opened CaptureMatch
  import opened Reachability
  import opened Closures

  // ---------------------------------------------------------------------
  // A suffix matched with context behaves like the whole string
  // ---------------------------------------------------------------------

  /** `t` is the rest of `w` from boundary `k` on, with the context that boundary has in `w`. */
  ghost predicate IsSuffix(t: Subject, w: Subject, k: nat)
  {
    && k <= |w.runes|
    && t.classes == w.classes
    && t.runes == w.runes[k..]
    && forall i :: 0 <= i <= |t.runes| ==> FlagsAt(t, i) == FlagsAt(w, k + i)
  }

  lemma {:induction false} SuffixMatches(r: Regex, t: Subject, w: Subject, k: nat, i: nat, j: nat)
    requires IsSuffix(t, w, k) && Matches(r, t, i, j)
    ensures Matches(r, w, k + i, k + j)
    decreases r, 0
  {
    match r
    case Leaf(_) =>
      assert i < |t.runes| ==> t.runes[i] == w.runes[k + i];
    case Concat(a, b) =>
      var m :| Matches(a, t, i, m) && Matches(b, t, m, j);
      SuffixMatches(a, t, w, k, i, m);
      SuffixMatches(b, t, w, k, m, j);
    case Either(a, b) =>
      if Matches(a, t, i, j) { SuffixMatches(a, t, w, k, i, j); } else { SuffixMatches(b, t, w, k, i, j); }
    case Repeat(kind, _, a) =>
      if Matches(a, t, i, j) {
        SuffixMatches(a, t, w, k, i, j);
        OnePower(a, w, k + i, k + j);
      } else if kind.ZeroOrMore? {
        var n: nat :| Power(a, n, t, i, j);
        SuffixPower(a, n, t, w, k, i, j);
      } else if kind.OneOrMore? {
        var n: nat :| n >= 1 && Power(a, n, t, i, j);
        SuffixPower(a, n, t, w, k, i, j);
      }
    case Group(_, a) => SuffixMatches(a, t, w, k, i, j);
  }

  lemma {:induction false} SuffixPower(r: Regex, n: nat, t: Subject, w: Subject, k: nat, i: nat, j: nat)
    requires IsSuffix(t, w, k) && Power(r, n, t, i, j)
    ensures Power(r, n, w, k + i, k + j)
    decreases r, n + 1
  {
    if n > 0 {
      var m :| Matches(r, t, i, m) && Power(r, n - 1, t, m, j);
      SuffixMatches(r, t, w, k, i, m);
      SuffixPower(r, n - 1, t, w, k, m, j);
    }
  }

  lemma {:induction false} MatchesSuffix(r: Regex, t: Subject, w: Subject, k: nat, i: nat, j: nat)
    requires IsSuffix(t, w, k) && k <= i && k <= j && Matches(r, w, i, j)
    ensures Matches(r, t, i - k, j - k)
    decreases r, 0
  {
    match r
    case Leaf(_) =>
      assert i < |w.runes| ==> t.runes[i - k] == w.runes[i];
      assert i <= |w.runes| ==> FlagsAt(t, i - k) == FlagsAt(w, k + (i - k));
    case Concat(a, b) =>
      var m :| Matches(a, w, i, m) && Matches(b, w, m, j);
      MatchesInRange(a, w, i, m);
      MatchesSuffix(a, t, w, k, i, m);
      MatchesSuffix(b, t, w, k, m, j);
    case Either(a, b) =>
      if Matches(a, w, i, j) { MatchesSuffix(a, t, w, k, i, j); } else { MatchesSuffix(b, t, w, k, i, j); }
    case Repeat(kind, _, a) =>
      if Matches(a, w, i, j) {
        MatchesSuffix(a, t, w, k, i, j);
        OnePower(a, t, i - k, j - k);
      } else if kind.ZeroOrMore? {
        var n: nat :| Power(a, n, w, i, j);
        PowerSuffix(a, n, t, w, k, i, j);
      } else if kind.OneOrMore? {
        var n: nat :| n >= 1 && Power(a, n, w, i, j);
        PowerSuffix(a, n, t, w, k, i, j);
      }
    case Group(_, a) => MatchesSuffix(a, t, w, k, i, j);
  }

  lemma {:induction false} PowerSuffix(r: Regex, n: nat, t: Subject, w: Subject, k: nat, i: nat, j: nat)
    requires IsSuffix(t, w, k) && k <= i && k <= j && Power(r, n, w, i, j)
    ensures Power(r, n, t, i - k, j - k)
    decreases r, n + 1
  {
    if n > 0 {
      var m :| Matches(r, w, i, m) && Power(r, n - 1, w, m, j);
      MatchesInRange(r, w, i, m);
      MatchesSuffix(r, t, w, k, i, m);
      PowerSuffix(r, n - 1, t, w, k, m, j);
    }
  }

  // ---------------------------------------------------------------------
  // The byte before a boundary tells whether a word character precedes it
  // ---------------------------------------------------------------------

  /** No multi-byte sequence spells a word character. */
  ghost predicate NoOverlongWord(s: seq<Byte>)
  {
    forall k :: 0 <= k < |Runes(s, 0)| ==> RuneAt(s, k).width > 1 ==> !IsWordChar(RuneAt(s, k).rune)
  }

  lemma WellFormedHasNoOverlongWord(s: seq<Byte>)
    requires NoOverlongAscii(s)
    ensures NoOverlongWord(s)
  {
  }

  /** The raw byte before boundary `k` answers the same as the rune there. */
  ghost predicate ByteTellsWord(s: seq<Byte>, k: nat)
    requires k <= |Runes(s, 0)|
  {
    k > 0 ==> (IsWordChar(s[Offset(s, 0, k) - 1]) <==> IsWordChar(Runes(s, 0)[k - 1]))
  }

  /** Looking at one byte is right at every boundary exactly when no word character is spelled overlong. */
  lemma {:induction false} ByteTellsWordIff(s: seq<Byte>)
    ensures NoOverlongWord(s) <==> forall k :: 0 <= k <= |Runes(s, 0)| ==> ByteTellsWord(s, k)
  {
    forall k | 0 < k <= |Runes(s, 0)|
      ensures ByteTellsWord(s, k) <==> (RuneAt(s, k - 1).width > 1 ==> !IsWordChar(RuneAt(s, k - 1).rune))
    {
      DecodeAt(s, 0, k - 1);
    }
    if forall k :: 0 <= k <= |Runes(s, 0)| ==> ByteTellsWord(s, k) {
      forall k | 0 <= k < |Runes(s, 0)|
        ensures RuneAt(s, k).width > 1 ==> !IsWordChar(RuneAt(s, k).rune)
      {
        assert ByteTellsWord(s, k + 1);
      }
    }
  }

  /** The letter A, spelled in two bytes. */
  const OVERLONG_A: seq<Byte> := [0xC1, 0x81]

  lemma {:induction false} OverlongDecoded()
    ensures Runes(OVERLONG_A, 0) == ['A' as int] && Offset(OVERLONG_A, 0, 1) == 2
  {
    assert DecodeRune(OVERLONG_A, 0) == Decoded('A' as int, 2);
    assert Runes(OVERLONG_A, 2) == [];
    assert Offset(OVERLONG_A, 2, 0) == 2;
  }

  /** After such a letter the text has a word boundary, but started there with the byte before it the matcher finds none. */
  lemma {:induction false} OverlongMisleads(classes: seq<RuneClass>)
    ensures !ByteTellsWord(OVERLONG_A, 1)
    ensures var whole := SubjectOf(classes, OVERLONG_A, true, false);
            var probe := SubjectOf(classes, OVERLONG_A[2..], false, IsWordChar(OVERLONG_A[1]));
            Matches(Leaf(WordBoundary), whole, 1, 1) && !Matches(Leaf(WordBoundary), probe, 0, 0)
  {
    OverlongDecoded();
    assert OVERLONG_A[2..] == [] && Runes([], 0) == [];
  }

  /** The whole string, from its start. */
  ghost function Whole(e: RegexEngine, s: seq<Byte>): (w: Subject)
    ensures w.Valid()
  {
    SubjectOf(e.classes, s, true, false)
  }

  /** What the matcher sees when it is started at boundary `k`. */
  ghost function Probe(e: RegexEngine, s: seq<Byte>, pos: nat): (t: Subject)
    requires pos <= |s|
    ensures t.Valid()
  {
    SubjectOf(e.classes, s[pos..], pos == 0, pos > 0 && IsWordChar(s[pos - 1]))
  }

  lemma ProbeRunes(e: RegexEngine, s: seq<Byte>, k: nat)
    requires k <= |Runes(s, 0)|
    ensures Probe(e, s, Offset(s, 0, k)).runes == Runes(s, 0)[k..]
  {
    ViewRunes(s, Offset(s, 0, k), 0);
    DecodeSuffix(s, 0, k);
  }

  /** Boundary `i` of a probe is boundary `k + i` of the whole string. */
  lemma ProbeOffset(e: RegexEngine, s: seq<Byte>, k: nat, i: nat)
    requires k <= |Runes(s, 0)| && i <= |Probe(e, s, Offset(s, 0, k)).runes|
    ensures k + i <= |Runes(s, 0)|
    ensures Offset(s, 0, k) + Probe(e, s, Offset(s, 0, k)).offsets[i] == Offset(s, 0, k + i)
  {
    var pos := Offset(s, 0, k);
    ViewRunes(s, pos, 0);
    DecodeSuffix(s, 0, k);
    ViewOffset(s, pos, 0, i);
    OffsetSuffix(s, 0, k, i);
  }

  lemma ProbeIsSuffix(e: RegexEngine, s: seq<Byte>, k: nat)
    requires k <= |Runes(s, 0)| && ByteTellsWord(s, k)
    ensures IsSuffix(Probe(e, s, Offset(s, 0, k)), Whole(e, s), k)
  {
    ProbeRunes(e, s, k);
    var t, w := Probe(e, s, Offset(s, 0, k)), Whole(e, s);
    forall i | 0 <= i <= |t.runes|
      ensures FlagsAt(t, i) == FlagsAt(w, k + i)
    {
      assert i > 0 ==> t.runes[i - 1] == w.runes[k + i - 1];
      assert i < |t.runes| ==> t.runes[i] == w.runes[k + i];
    }
  }

  // ---------------------------------------------------------------------
  // Search
  // ---------------------------------------------------------------------

  /** The pattern matches somewhere from boundary `k` on the whole string. */
  ghost predicate MatchesAt(e: RegexEngine, s: seq<Byte>, k: nat)
  {
    exists j :: k <= j <= |Runes(s, 0)| && PatternMatches(e.pattern, Whole(e, s), k, j)
  }

  /** Boundaries `k` and `j` enclose the longest match that starts at `k`. */
  ghost predicate LongestAt(e: RegexEngine, s: seq<Byte>, k: nat, j: nat)
  {
    && k <= j <= |Runes(s, 0)|
    && PatternMatches(e.pattern, Whole(e, s), k, j)
    && forall m :: j < m <= |Runes(s, 0)| ==> !PatternMatches(e.pattern, Whole(e, s), k, m)
  }

  lemma PatternMatchesSuffix(e: RegexEngine, s: seq<Byte>, k: nat, t: Subject, i: nat)
    requires k <= |Runes(s, 0)| && t == Probe(e, s, Offset(s, 0, k)) && IsSuffix(t, Whole(e, s), k)
    ensures PatternMatches(e.pattern, t, 0, i) <==> PatternMatches(e.pattern, Whole(e, s), k, k + i)
  {
    if e.pattern.Some? {
      if Matches(e.pattern.value, t, 0, i) {
        SuffixMatches(e.pattern.value, t, Whole(e, s), k, 0, i);
      }
      if Matches(e.pattern.value, Whole(e, s), k, k + i) {
        MatchesSuffix(e.pattern.value, t, Whole(e, s), k, k, k + i);
      }
    }
  }

  /** A probe that reports nothing rules out a match at its boundary. */
  lemma ProbeFails(e: RegexEngine, s: seq<Byte>, k: nat, t: Subject)
    requires k <= |Runes(s, 0)| && t == Probe(e, s, Offset(s, 0, k)) && IsSuffix(t, Whole(e, s), k)
    requires IsLongest(e.pattern, t, None)
    ensures !MatchesAt(e, s, k)
  {
    forall j | k <= j <= |Runes(s, 0)|
      ensures !PatternMatches(e.pattern, Whole(e, s), k, j)
    {
      PatternMatchesSuffix(e, s, k, t, j - k);
      assert k + (j - k) == j;
    }
  }

  /** A probe that reports a length has found the longest match there. */
  lemma ProbeFinds(e: RegexEngine, s: seq<Byte>, k: nat, t: Subject, b: nat)
    requires k <= |Runes(s, 0)| && t == Probe(e, s, Offset(s, 0, k)) && IsSuffix(t, Whole(e, s), k)
    requires b <= |t.runes| && IsLongest(e.pattern, t, Some(b))
    ensures LongestAt(e, s, k, k + b)
  {
    PatternMatchesSuffix(e, s, k, t, b);
    forall m | k + b < m <= |Runes(s, 0)|
      ensures !PatternMatches(e.pattern, Whole(e, s), k, m)
    {
      PatternMatchesSuffix(e, s, k, t, m - k);
      assert k + (m - k) == m;
    }
  }

  lemma {:induction false} ProbeDecides(e: RegexEngine, s: seq<Byte>, k: nat, len: Option<nat>) returns (last: nat)
    requires k <= |Runes(s, 0)| && ByteTellsWord(s, k)
    requires IsLongestPrefix(e.pattern, Probe(e, s, Offset(s, 0, k)), len)
    ensures len == None ==> !MatchesAt(e, s, k)
    ensures len.Some? ==> LongestAt(e, s, k, last) && Offset(s, 0, k) + len.value == Offset(s, 0, last)
  {
    var t := Probe(e, s, Offset(s, 0, k));
    ProbeIsSuffix(e, s, k);
    last := k;
    if len == None {
      ProbeFails(e, s, k, t);
    } else {
      var b: nat :| b <= |t.runes| && len.value == t.offsets[b] && IsLongest(e.pattern, t, Some(b));
      ProbeFinds(e, s, k, t, b);
      ProbeOffset(e, s, k, b);
      last := k + b;
    }
  }

  /** The result of a search: a byte position, a byte length, and captures in whole-string offsets. */
  datatype SearchResult = NotFound | Found(start: nat, len: nat, captures: seq<Capture>)

  /** Whole-string offsets. Adding to an unset end, which is the largest size value, wraps around. */
  function ShiftCapture(c: Capture, delta: nat): Capture
  {
    if c.start == None then c
    else
      Capture(Some(c.start.value + delta),
              if c.end.Some? then Some(c.end.value + delta) else if delta == 0 then None else Some(delta - 1))
  }

  function ShiftCaptures(cs: seq<Capture>, delta: nat): seq<Capture>
  {
    seq(|cs|, k requires 0 <= k < |cs| => ShiftCapture(cs[k], delta))
  }

  /** From boundary `from` on the pattern first matches at boundary `first`, and its longest match there ends at `last`. */
  ghost predicate IsLeftmostLongest(e: RegexEngine, s: seq<Byte>, from: nat, first: nat, last: nat)
  {
    from <= first && LongestAt(e, s, first, last) && NoneBetween(e, s, from, first)
  }

  /** The pattern matches at no boundary from `from` on and before `end`. */
  ghost predicate NoneBetween(e: RegexEngine, s: seq<Byte>, from: nat, end: nat)
  {
    forall m :: from <= m < end ==> !MatchesAt(e, s, m)
  }

  /** The reported bytes are those between boundaries `first` and `last`, from boundary `from` on. */
  ghost predicate Spot(s: seq<Byte>, from: nat, result: SearchResult, first: nat, last: nat)
  {
    result.Found? ==>
      && from <= first <= last <= |Runes(s, 0)|
      && result.start == Offset(s, 0, first) && result.start + result.len == Offset(s, 0, last)
  }

  /** The captures are those of the run that the matcher prefers when it is started at the reported position. */
  ghost predicate CapturesCredited(e: RegexEngine, s: seq<Byte>, start: nat, len: nat, captures: seq<Capture>)
  {
    start + len <= |s| &&
    exists cs :: Credited(e, Probe(e, s, start), len, cs) && captures == ShiftCaptures(cs, start)
  }

  /** A match that starts at boundary `k` never runs out of capture frames. */
  ghost predicate RoomAt(e: RegexEngine, s: seq<Byte>, k: nat)
    requires k <= |Runes(s, 0)|
  {
    Room(e, Probe(e, s, Offset(s, 0, k)))
  }

  /** Neither does one at any boundary from `from` to `last`. */
  ghost predicate RoomBetween(e: RegexEngine, s: seq<Byte>, from: nat, last: nat)
  {
    forall k :: from <= k <= last && k <= |Runes(s, 0)| ==> RoomAt(e, s, k)
  }

  /** What a search from boundary `from` reports. */
  ghost predicate Answer(e: RegexEngine, s: seq<Byte>, from: nat, result: SearchResult, first: nat, last: nat)
  {
    match result
    case NotFound => NoneBetween(e, s, from, |Runes(s, 0)| + 1)
    case Found(_, _, _) => IsLeftmostLongest(e, s, from, first, last)
  }

  /** One probe at boundary `k`. */
  method ProbeAt(e: RegexEngine, s: seq<Byte>, ctx: MatchContext, probe: nat, ghost k: nat)
      returns (result: SearchResult, ghost last: nat)
    requires ctx.Valid() && e.Ready()
    requires k <= |Runes(s, 0)| && probe == Offset(s, 0, k)
    modifies ctx
    ensures ctx.Valid()
    ensures Spot(s, k, result, k, last)
    ensures result.Found? ==> CapturesCredited(e, s, result.start, result.len, result.captures)
    ensures RoomAt(e, s, k) && NoOverlongWord(s) ==> if result.Found? then LongestAt(e, s, k, last) else !MatchesAt(e, s, k)
  {
    var prevWord := probe > 0 && IsWordChar(s[probe - 1]);
    var len, captures := FindPrefixWithContext(e, s[probe..], ctx, probe == 0, prevWord);
    last := k;
    if RoomAt(e, s, k) && NoOverlongWord(s) {
      ByteTellsWordIff(s);
      last := ProbeDecides(e, s, k, len);
    } else if len.Some? {
      last := ProbeEnds(e, s, k, len.value, captures);
    }
    result := NotFound;
    if len.Some? {
      result := Found(probe, len.value, ShiftCaptures(captures, probe));
    }
  }

  /**
   * Finds the leftmost match from byte `startPos`, which starts rune `from`,
   * and the longest one there. Only a full capture arena can hide a match.
   */
  method Search(e: RegexEngine, s: seq<Byte>, ctx: MatchContext, startPos: nat, ghost from: nat)
      returns (result: SearchResult, ghost first: nat, ghost last: nat)
    requires ctx.Valid() && (e.errorCode == NoError ==> e.Ready())
    requires from <= |Runes(s, 0)| && startPos == Offset(s, 0, from)
    modifies ctx
    ensures ctx.Valid()
    ensures Spot(s, from, result, first, last)
    ensures result.Found? ==> CapturesCredited(e, s, result.start, result.len, result.captures)
    ensures e.errorCode != NoError ==> result == NotFound
    ensures e.errorCode == NoError && NoOverlongWord(s) && RoomBetween(e, s, from, first) ==> Answer(e, s, from, result, first, last)
  {
    result, first, last := NotFound, from, from;
    if e.errorCode == NoError {
      result, first, last := ProbeOnward(e, s, ctx, startPos, from);
    }
  }

  method ProbeOnward(e: RegexEngine, s: seq<Byte>, ctx: MatchContext, startPos: nat, ghost from: nat)
      returns (result: SearchResult, ghost first: nat, ghost last: nat)
    requires ctx.Valid() && e.Ready()
    requires from <= |Runes(s, 0)| && startPos == Offset(s, 0, from)
    modifies ctx
    ensures ctx.Valid()
    ensures Spot(s, from, result, first, last)
    ensures result.Found? ==> CapturesCredited(e, s, result.start, result.len, result.captures)
    ensures NoOverlongWord(s) && RoomBetween(e, s, from, first) ==> Answer(e, s, from, result, first, last)
  {
    result, first, last := NotFound, from, from;
    var probe := startPos;
    while probe <= |s|
      invariant ctx.Valid() && result == NotFound
      invariant from <= first <= |Runes(s, 0)| && probe == Offset(s, 0, first)
      invariant NoOverlongWord(s) && RoomBetween(e, s, from, first) ==> NoneBetween(e, s, from, first)
      decreases |s| - probe
    {
      result, last := ProbeAt(e, s, ctx, probe, first);
      if result.Found? {
        return;
      }
      if probe == |s| {
        break;
      }
      NextBoundary(s, first);
      probe, first := probe + DecodeRune(s, probe).width, first + 1;
    }
  }

  lemma NextBoundary(s: seq<Byte>, k: nat)
    requires k <= |Runes(s, 0)| && Offset(s, 0, k) < |s|
    ensures k < |Runes(s, 0)|
    ensures var width := DecodeRune(s, Offset(s, 0, k)).width;
            width > 0 && Offset(s, 0, k) + width == Offset(s, 0, k + 1) <= |s|
  {
    DecodeAt(s, 0, k);
  }

  lemma RoomMonotone(n: nat, m: nat, c: nat, g: nat)
    requires n <= m
    ensures 2 * g * (2 + (n + 1) * c) <= 2 * g * (2 + (m + 1) * c)
  {
    MulMonotone(n + 1, m + 1, c);
    MulMonotone(2 + (n + 1) * c, 2 + (m + 1) * c, 2 * g);
  }

  /** A later start leaves fewer runes, so an arena that suffices for the whole string has room there as well. */
  lemma {:induction false} ProbeRoom(e: RegexEngine, s: seq<Byte>, k: nat)
    requires k <= |Runes(s, 0)| && ArenaSuffices(e, Whole(e, s))
    ensures RoomAt(e, s, k)
  {
    ProbeRunes(e, s, k);
    var c := |CaptureStates(e.states)|;
    var n, m := |Runes(s, 0)| - k, |Runes(s, 0)|;
    assert |Probe(e, s, Offset(s, 0, k)).runes| == n && |Whole(e, s).runes| == m;
    RoomMonotone(n, m, c, e.numCaptures);
    SufficientRoom(e, Probe(e, s, Offset(s, 0, k)));
  }

  lemma AmpleRoom(e: RegexEngine, s: seq<Byte>)
    requires ArenaSuffices(e, Whole(e, s))
    ensures RoomBetween(e, s, 0, |Runes(s, 0)|)
  {
    forall k | 0 <= k <= |Runes(s, 0)|
      ensures RoomAt(e, s, k)
    {
      ProbeRoom(e, s, k);
    }
  }

  /** A reported length ends at a boundary of the whole string. */
  lemma {:induction false} ProbeEnds(e: RegexEngine, s: seq<Byte>, k: nat, len: nat, captures: seq<Capture>) returns (last: nat)
    requires k <= |Runes(s, 0)| && Credited(e, Probe(e, s, Offset(s, 0, k)), len, captures)
    ensures k <= last <= |Runes(s, 0)| && Offset(s, 0, k) + len == Offset(s, 0, last)
  {
    var t := Probe(e, s, Offset(s, 0, k));
    var i, d :| 0 <= i <= |t.runes| && len == t.offsets[i] && AcceptsWith(e.pattern, t, i, e.numCaptures, d) && captures == Spans(d);
    ProbeOffset(e, s, k, i);
    last := k + i;
  }
}
