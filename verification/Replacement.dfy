// Replacing all matches of a pattern in a string: GlobalReplace in regex.h.

module Replacement {
  import opened Options
  import opened Utf8
  import opened RegexSemantics
  import opened Postfix
  import opened Engine
  import opened CaptureMatch
  import opened Search

  const BACKSLASH: Byte := 92

  /** A capture index in a rewrite template, and where the template continues. */
  function ParseIndex(rewrite: seq<Byte>, j: nat, idx: nat): (r: (nat, nat))
    requires j <= |rewrite|
    ensures j <= r.1 <= |rewrite|
    ensures j < |rewrite| && IsDigit(rewrite[j]) ==> j < r.1
    decreases |rewrite| - j
  {
    if j == |rewrite| || !IsDigit(rewrite[j]) then (idx, j)
    else
      var next := idx * 10 + (rewrite[j] - 48);
      if next > MAX_CAPTURES then (next, j + 1) else ParseIndex(rewrite, j + 1, next)
  }

  /** The text a capture index stands for; out-of-range and unset groups stand for nothing. */
  function IndexText(idx: nat, src: seq<Byte>, start: nat, len: nat, captures: seq<Capture>): seq<Byte>
    requires start + len <= |src|
  {
    if idx == 0 then src[start..start + len]
    else if idx <= |captures| then
      var c := captures[idx - 1];
      if c.start.Some? && c.end.Some? && c.start.value <= c.end.value <= |src| then src[c.start.value..c.end.value] else []
    else []
  }

  /** The replacement text of one match. */
  function Rewritten(rewrite: seq<Byte>, i: nat, src: seq<Byte>, start: nat, len: nat, captures: seq<Capture>): seq<Byte>
    requires i <= |rewrite| && start + len <= |src|
    decreases |rewrite| - i
  {
    if i == |rewrite| then []
    else if rewrite[i] == BACKSLASH && i + 1 < |rewrite| then
      if IsDigit(rewrite[i + 1]) then
        var (idx, j) := ParseIndex(rewrite, i + 1, 0);
        IndexText(idx, src, start, len, captures) + Rewritten(rewrite, j, src, start, len, captures)
      else
        [rewrite[i + 1]] + Rewritten(rewrite, i + 2, src, start, len, captures)
    else
      [rewrite[i]] + Rewritten(rewrite, i + 1, src, start, len, captures)
  }

  /** Appends the replacement text, one template item at a time. */
  method AppendRewrite(output: seq<Byte>, rewrite: seq<Byte>, src: seq<Byte>, start: nat, len: nat, captures: seq<Capture>)
      returns (result: seq<Byte>)
    requires start + len <= |src|
    ensures result == output + Rewritten(rewrite, 0, src, start, len, captures)
  {
    result := output;
    var i := 0;
    while i < |rewrite|
      invariant 0 <= i <= |rewrite|
      invariant result + Rewritten(rewrite, i, src, start, len, captures) ==
                output + Rewritten(rewrite, 0, src, start, len, captures)
      decreases |rewrite| - i
    {
      ghost var before, i0 := result, i;
      var piece: seq<Byte>;
      if rewrite[i] == BACKSLASH && i + 1 < |rewrite| {
        if IsDigit(rewrite[i + 1]) {
          var (idx, j) := ParseIndex(rewrite, i + 1, 0);
          piece, i := IndexText(idx, src, start, len, captures), j;
        } else {
          piece, i := [rewrite[i + 1]], i + 2;
        }
      } else {
        piece, i := [rewrite[i]], i + 1;
      }
      result := result + piece;
      assert Rewritten(rewrite, i0, src, start, len, captures) == piece + Rewritten(rewrite, i, src, start, len, captures);
      assert before + (piece + Rewritten(rewrite, i, src, start, len, captures)) ==
             result + Rewritten(rewrite, i, src, start, len, captures);
    }
  }

  // ---------------------------------------------------------------------
  // What is replaced
  // ---------------------------------------------------------------------

  /** A search from boundary `from` found the stretch between boundaries `first` and `last`. */
  datatype Hit = Hit(from: nat, first: nat, last: nat, captures: seq<Capture>)

  /** Replaced stretches, the latest outermost. */
  datatype Hits = Nothing | Then(earlier: Hits, hit: Hit)

  function Count(hits: Hits): nat
  {
    match hits
    case Nothing => 0
    case Then(earlier, _) => Count(earlier) + 1
  }

  /** The boundary the next search starts from: past the stretch, and past one more rune if the stretch is empty. */
  function NextFrom(hits: Hits): nat
  {
    match hits
    case Nothing => 0
    case Then(_, h) => if h.first == h.last then h.last + 1 else h.last
  }

  /** Each stretch lies in the string and begins where the search for it started, or later. */
  ghost predicate InOrder(s: seq<Byte>, hits: Hits)
  {
    match hits
    case Nothing => true
    case Then(earlier, h) => NextFrom(earlier) == h.from <= h.first <= h.last <= |Runes(s, 0)| && InOrder(s, earlier)
  }

  /** Where the last stretch ends. */
  ghost function End(s: seq<Byte>, hits: Hits): (pos: nat)
    requires InOrder(s, hits)
    ensures pos <= |s|
  {
    match hits
    case Nothing => 0
    case Then(_, h) => Offset(s, 0, h.last)
  }

  lemma BoundaryOrder(s: seq<Byte>, a: nat, b: nat)
    requires a <= b <= |Runes(s, 0)|
    ensures Offset(s, 0, a) <= Offset(s, 0, b) <= |s|
  {
    if a < b {
      OffsetIncreases(s, 0, a, b);
    }
  }

  lemma EndBefore(s: seq<Byte>, hits: Hits, k: nat)
    requires InOrder(s, hits) && NextFrom(hits) <= k <= |Runes(s, 0)|
    ensures End(s, hits) <= Offset(s, 0, k)
  {
    match hits
    case Nothing =>
    case Then(_, h) => BoundaryOrder(s, h.last, k);
  }

  /** The template applied to one match. */
  ghost function Text(s: seq<Byte>, rewrite: seq<Byte>, h: Hit): seq<Byte>
    requires h.first <= h.last <= |Runes(s, 0)|
  {
    BoundaryOrder(s, h.first, h.last);
    Rewritten(rewrite, 0, s, Offset(s, 0, h.first), Offset(s, 0, h.last) - Offset(s, 0, h.first), h.captures)
  }

  /** The string up to the end of the last stretch, with every stretch replaced by its text. */
  ghost function Replaced(s: seq<Byte>, rewrite: seq<Byte>, hits: Hits): seq<Byte>
    requires InOrder(s, hits)
  {
    match hits
    case Nothing => []
    case Then(earlier, h) =>
      EndBefore(s, earlier, h.first);
      Replaced(s, rewrite, earlier) + s[End(s, earlier)..Offset(s, 0, h.first)] + Text(s, rewrite, h)
  }

  /** Every stretch is the longest match at the leftmost boundary where the pattern matches, from its search on. */
  ghost predicate LeftmostLongest(e: RegexEngine, s: seq<Byte>, hits: Hits)
  {
    match hits
    case Nothing => true
    case Then(earlier, h) => IsLeftmostLongest(e, s, h.from, h.first, h.last) && LeftmostLongest(e, s, earlier)
  }

  /** The captures of every stretch are those of the run that the matcher prefers there. */
  ghost predicate AllCredited(e: RegexEngine, s: seq<Byte>, hits: Hits)
    requires InOrder(s, hits)
  {
    match hits
    case Nothing => true
    case Then(earlier, h) =>
      BoundaryOrder(s, h.first, h.last);
      CapturesCredited(e, s, Offset(s, 0, h.first), Offset(s, 0, h.last) - Offset(s, 0, h.first), h.captures) &&
      AllCredited(e, s, earlier)
  }

  // ---------------------------------------------------------------------
  // The stretches are determined, and replacing them by themselves changes nothing
  // ---------------------------------------------------------------------

  /** The first `n` stretches. */
  function Earliest(hits: Hits, n: nat): (r: Hits)
    requires n <= Count(hits)
    ensures Count(r) == n
  {
    if n == Count(hits) then hits else Earliest(hits.earlier, n)
  }

  lemma {:induction false} EarliestKeeps(e: RegexEngine, s: seq<Byte>, hits: Hits, n: nat)
    requires n <= Count(hits) && InOrder(s, hits) && LeftmostLongest(e, s, hits)
    ensures InOrder(s, Earliest(hits, n)) && LeftmostLongest(e, s, Earliest(hits, n))
  {
    if n < Count(hits) {
      EarliestKeeps(e, s, hits.earlier, n);
    }
  }

  lemma {:induction false} EarliestOfEarlier(hits: Hits, n: nat)
    requires n < Count(hits)
    ensures Earliest(hits, n + 1).Then? && Earliest(hits, n + 1).earlier == Earliest(hits, n)
  {
    if n + 1 < Count(hits) {
      EarliestOfEarlier(hits.earlier, n);
    }
  }

  /** Two lists of stretches agree on where the stretches lie. */
  predicate SameSpots(a: Hits, b: Hits)
  {
    match a
    case Nothing => b == Nothing
    case Then(earlier, h) =>
      b.Then? && h.from == b.hit.from && h.first == b.hit.first && h.last == b.hit.last && SameSpots(earlier, b.earlier)
  }

  lemma LongestIsUnique(e: RegexEngine, s: seq<Byte>, from: nat, first: nat, last: nat, first': nat, last': nat)
    requires IsLeftmostLongest(e, s, from, first, last) && IsLeftmostLongest(e, s, from, first', last')
    ensures first == first' && last == last'
  {
    assert MatchesAt(e, s, first) && MatchesAt(e, s, first');
  }

  /** Leftmost longest stretches that follow one another are determined by the string and the pattern. */
  lemma {:induction false} SpotsAreUnique(e: RegexEngine, s: seq<Byte>, a: Hits, b: Hits)
    requires Count(a) == Count(b)
    requires InOrder(s, a) && LeftmostLongest(e, s, a)
    requires InOrder(s, b) && LeftmostLongest(e, s, b)
    ensures SameSpots(a, b)
  {
    if a.Then? {
      SpotsAreUnique(e, s, a.earlier, b.earlier);
      SameNext(a.earlier, b.earlier);
      LongestIsUnique(e, s, a.hit.from, a.hit.first, a.hit.last, b.hit.first, b.hit.last);
    }
  }

  lemma SameNext(a: Hits, b: Hits)
    requires SameSpots(a, b)
    ensures NextFrom(a) == NextFrom(b)
  {
  }

  /** The list is complete: no further stretch can be found after it. */
  ghost predicate Complete(e: RegexEngine, s: seq<Byte>, hits: Hits)
  {
    NoneBetween(e, s, NextFrom(hits), |Runes(s, 0)| + 1)
  }

  lemma NoMoreAfterComplete(e: RegexEngine, s: seq<Byte>, a: Hits, b: Hits)
    requires InOrder(s, a) && LeftmostLongest(e, s, a) && Complete(e, s, a)
    requires InOrder(s, b) && LeftmostLongest(e, s, b)
    ensures Count(b) <= Count(a)
  {
    if Count(b) > Count(a) {
      var c := Earliest(b, Count(a) + 1);
      EarliestKeeps(e, s, b, Count(a) + 1);
      EarliestKeeps(e, s, b, Count(a));
      EarliestOfEarlier(b, Count(a));
      SpotsAreUnique(e, s, a, c.earlier);
      SameNext(a, c.earlier);
      assert MatchesAt(e, s, c.hit.first);
    }
  }

  /** All matches: any two complete lists of leftmost longest stretches are the same. */
  lemma MatchesAreUnique(e: RegexEngine, s: seq<Byte>, a: Hits, b: Hits)
    requires InOrder(s, a) && LeftmostLongest(e, s, a) && Complete(e, s, a)
    requires InOrder(s, b) && LeftmostLongest(e, s, b) && Complete(e, s, b)
    ensures SameSpots(a, b)
  {
    NoMoreAfterComplete(e, s, a, b);
    NoMoreAfterComplete(e, s, b, a);
    SpotsAreUnique(e, s, a, b);
  }

  lemma WholeMatchTemplate(src: seq<Byte>, start: nat, len: nat, cs: seq<Capture>)
    requires start + len <= |src|
    ensures Rewritten([BACKSLASH, 48], 0, src, start, len, cs) == src[start..start + len]
  {
    var rewrite: seq<Byte> := [BACKSLASH, 48];
    assert ParseIndex(rewrite, 2, 0) == (0, 2);
    assert ParseIndex(rewrite, 1, 0) == (0, 2);
    assert Rewritten(rewrite, 2, src, start, len, cs) == [];
  }

  lemma CutTwice(s: seq<Byte>, a: nat, b: nat, c: nat)
    requires a <= b <= c <= |s|
    ensures s[..a] + s[a..b] + s[b..c] == s[..c]
  {
  }

  /** With the template \0 every stretch is replaced by itself. */
  lemma {:induction false} ReplacedByItself(s: seq<Byte>, hits: Hits)
    requires InOrder(s, hits)
    ensures Replaced(s, [BACKSLASH, 48], hits) == s[..End(s, hits)]
  {
    if hits.Then? {
      var h, earlier := hits.hit, hits.earlier;
      ReplacedByItself(s, earlier);
      EndBefore(s, earlier, h.first);
      BoundaryOrder(s, h.first, h.last);
      var a, b, c := End(s, earlier), Offset(s, 0, h.first), Offset(s, 0, h.last);
      WholeMatchTemplate(s, b, c - b, h.captures);
      CutTwice(s, a, b, c);
    }
  }

  // ---------------------------------------------------------------------
  // The replacing loop
  // ---------------------------------------------------------------------

  /** The output so far: everything before byte `pos`, which starts rune `from`. */
  ghost predicate Written(s: seq<Byte>, rewrite: seq<Byte>, hits: Hits, pos: nat, from: nat, output: seq<Byte>)
  {
    && InOrder(s, hits) && from == NextFrom(hits) <= |Runes(s, 0)| && pos == Offset(s, 0, from)
    && End(s, hits) <= pos
    && output == Replaced(s, rewrite, hits) + s[End(s, hits)..pos]
  }

  lemma ReplacedThen(s: seq<Byte>, rewrite: seq<Byte>, hits: Hits, h: Hit)
    requires InOrder(s, Then(hits, h))
    ensures End(s, hits) <= Offset(s, 0, h.first) <= Offset(s, 0, h.last) <= |s|
    ensures Replaced(s, rewrite, Then(hits, h)) ==
            Replaced(s, rewrite, hits) + s[End(s, hits)..Offset(s, 0, h.first)] + Text(s, rewrite, h)
  {
    EndBefore(s, hits, h.first);
    BoundaryOrder(s, h.first, h.last);
  }

  lemma {:induction false} TextAt(s: seq<Byte>, rewrite: seq<Byte>, h: Hit, start: nat, len: nat)
    requires h.first <= h.last <= |Runes(s, 0)| && start == Offset(s, 0, h.first) && start + len == Offset(s, 0, h.last)
    ensures start + len <= |s| && Text(s, rewrite, h) == Rewritten(rewrite, 0, s, start, len, h.captures)
  {
  }

  lemma CopyBetween(output: seq<Byte>, s: seq<Byte>, a: nat, b: nat, c: nat)
    requires a <= b <= c <= |s|
    ensures output + s[a..b] + s[b..c] == output + s[a..c]
  {
    assert s[a..b] + s[b..c] == s[a..c];
  }

  /** A stretch is replaced: the text before it is copied and its replacement appended. */
  method ReplaceOne(s: seq<Byte>, rewrite: seq<Byte>, pos: nat, output: seq<Byte>, start: nat, len: nat, captures: seq<Capture>,
                    ghost from: nat, ghost hits: Hits, ghost first: nat, ghost last: nat)
      returns (out: seq<Byte>)
    requires Written(s, rewrite, hits, pos, from, output)
    requires from <= first <= last <= |Runes(s, 0)| && start == Offset(s, 0, first) && start + len == Offset(s, 0, last)
    ensures InOrder(s, Then(hits, Hit(from, first, last, captures)))
    ensures out == Replaced(s, rewrite, Then(hits, Hit(from, first, last, captures)))
  {
    BoundaryOrder(s, from, first);
    BoundaryOrder(s, first, last);
    ghost var h := Hit(from, first, last, captures);
    out := AppendRewrite(output + s[pos..start], rewrite, s, start, len, captures);
    CopyBetween(Replaced(s, rewrite, hits), s, End(s, hits), pos, start);
    ReplacedThen(s, rewrite, hits, h);
    TextAt(s, rewrite, h, start, len);
  }

  /** After a stretch the output is copied up to where the next search starts; an empty stretch takes one rune with it. */
  method CopyOnward(s: seq<Byte>, rewrite: seq<Byte>, output: seq<Byte>, start: nat, len: nat, ghost hits: Hits)
      returns (out: seq<Byte>, next: Option<nat>)
    requires hits.Then? && InOrder(s, hits) && output == Replaced(s, rewrite, hits)
    requires start == Offset(s, 0, hits.hit.first) && start + len == Offset(s, 0, hits.hit.last)
    ensures next.Some? ==> start < next.value && Written(s, rewrite, hits, next.value, NextFrom(hits), out)
    ensures next.None? ==> out == Replaced(s, rewrite, hits) + s[End(s, hits)..] && NextFrom(hits) == |Runes(s, 0)| + 1
  {
    ghost var h := hits.hit;
    out, next := output, None;
    if h.first < h.last {
      OffsetIncreases(s, 0, h.first, h.last);
    }
    if len == 0 {
      if start < |s| {
        DecodeAt(s, 0, h.last);
        var end := start + DecodeRune(s, start).width;
        out, next := output + s[start..end], Some(end);
      } else {
        assert s[End(s, hits)..] == [];
      }
    } else {
      next := Some(start + len);
      assert s[start + len..start + len] == [];
    }
  }

  /** The stretches lie in order, their captures are credited and, if `certain`, they are leftmost longest. */
  ghost predicate Proper(e: RegexEngine, s: seq<Byte>, hits: Hits, certain: bool)
  {
    InOrder(s, hits) && AllCredited(e, s, hits) && (certain ==> LeftmostLongest(e, s, hits))
  }

  lemma {:induction false} ProperThen(e: RegexEngine, s: seq<Byte>, hits: Hits, certain: bool, result: SearchResult, first: nat, last: nat)
    requires Proper(e, s, hits, certain) && result.Found? && Spot(s, NextFrom(hits), result, first, last)
    requires CapturesCredited(e, s, result.start, result.len, result.captures)
    requires certain ==> IsLeftmostLongest(e, s, NextFrom(hits), first, last)
    ensures Proper(e, s, Then(hits, Hit(NextFrom(hits), first, last, result.captures)), certain)
  {
  }

  lemma {:induction false} RestWritten(s: seq<Byte>, rewrite: seq<Byte>, hits: Hits, pos: nat, from: nat, output: seq<Byte>)
    requires Written(s, rewrite, hits, pos, from, output)
    ensures output + s[pos..] == Replaced(s, rewrite, hits) + s[End(s, hits)..]
  {
    assert s[End(s, hits)..] == s[End(s, hits)..pos] + s[pos..];
  }

  /** No match can be missed: no word character is spelled overlong, and no probe runs out of capture frames. */
  ghost predicate Certain(e: RegexEngine, s: seq<Byte>)
  {
    NoOverlongWord(s) && RoomBetween(e, s, 0, |Runes(s, 0)|)
  }

  /** How a round of the loop ends: no match was found, the match was the last one, or the next search starts at `pos`. */
  datatype Turn = Done | Last | Next(pos: nat)

  /** One round: search, copy the text before the match, append its replacement. */
  method ReplaceNext(e: RegexEngine, s: seq<Byte>, rewrite: seq<Byte>, ctx: MatchContext, pos: nat, output: seq<Byte>,
                     ghost from: nat, ghost hits: Hits)
      returns (out: seq<Byte>, next: Turn, ghost hits': Hits)
    requires ctx.Valid() && e.errorCode == NoError && e.Ready()
    requires Written(s, rewrite, hits, pos, from, output) && Proper(e, s, hits, Certain(e, s))
    modifies ctx
    ensures ctx.Valid()
    ensures Proper(e, s, hits', Certain(e, s))
    ensures Count(hits') == if next.Done? then Count(hits) else Count(hits) + 1
    ensures next.Next? ==> pos < next.pos && Written(s, rewrite, hits', next.pos, NextFrom(hits'), out)
    ensures !next.Next? ==> out == Replaced(s, rewrite, hits') + s[End(s, hits')..] && (Certain(e, s) ==> Complete(e, s, hits'))
  {
    var result;
    ghost var first, last;
    result, first, last := Search.Search(e, s, ctx, pos, from);
    if result.NotFound? {
      RestWritten(s, rewrite, hits, pos, from, output);
      return output + s[pos..], Done, hits;
    }
    BoundaryOrder(s, from, first);
    ProperThen(e, s, hits, Certain(e, s), result, first, last);
    hits' := Then(hits, Hit(from, first, last, result.captures));
    out, next := ReplaceFound(s, rewrite, pos, output, result, from, hits, first, last);
  }

  /** The match that was found is replaced, and the next search starts after it. */
  method ReplaceFound(s: seq<Byte>, rewrite: seq<Byte>, pos: nat, output: seq<Byte>, result: SearchResult,
                      ghost from: nat, ghost hits: Hits, ghost first: nat, ghost last: nat)
      returns (out: seq<Byte>, next: Turn)
    requires Written(s, rewrite, hits, pos, from, output) && result.Found? && Spot(s, from, result, first, last)
    ensures !next.Done?
    ensures var hits' := Then(hits, Hit(from, first, last, result.captures));
            InOrder(s, hits') &&
            if next.Next? then result.start < next.pos && Written(s, rewrite, hits', next.pos, NextFrom(hits'), out)
            else out == Replaced(s, rewrite, hits') + s[End(s, hits')..] && NextFrom(hits') == |Runes(s, 0)| + 1
  {
    out := ReplaceOne(s, rewrite, pos, output, result.start, result.len, result.captures, from, hits, first, last);
    var onward;
    out, onward := CopyOnward(s, rewrite, out, result.start, result.len, Then(hits, Hit(from, first, last, result.captures)));
    next := if onward.Some? then Next(onward.value) else Last;
  }

  /**
   * Replaces all matches. The output is the input with the stretches of
   * `hits` replaced by the template applied to them. These are all leftmost
   * longest matches, one after the other, unless the capture arena is too
   * small or a word character is spelled overlong. The loop ends on every
   * input.
   */
  method GlobalReplace(e: RegexEngine, s: seq<Byte>, rewrite: seq<Byte>, ctx: MatchContext)
      returns (output: seq<Byte>, replacements: nat, ghost hits: Hits)
    requires ctx.Valid() && (e.errorCode == NoError ==> e.Ready())
    modifies ctx
    ensures ctx.Valid()
    ensures InOrder(s, hits) && output == Replaced(s, rewrite, hits) + s[End(s, hits)..] && replacements == Count(hits)
    ensures AllCredited(e, s, hits)
    ensures e.errorCode != NoError ==> output == s && hits == Nothing
    ensures e.errorCode == NoError && Certain(e, s) ==> LeftmostLongest(e, s, hits) && Complete(e, s, hits)
  {
    output, replacements, hits := [], 0, Nothing;
    if e.errorCode != NoError {
      output := s;
      return;
    }
    output, replacements, hits := ReplaceAll(e, s, rewrite, ctx);
  }

  method ReplaceAll(e: RegexEngine, s: seq<Byte>, rewrite: seq<Byte>, ctx: MatchContext)
      returns (output: seq<Byte>, replacements: nat, ghost hits: Hits)
    requires ctx.Valid() && e.errorCode == NoError && e.Ready()
    modifies ctx
    ensures ctx.Valid()
    ensures Proper(e, s, hits, Certain(e, s))
    ensures output == Replaced(s, rewrite, hits) + s[End(s, hits)..] && replacements == Count(hits)
    ensures Certain(e, s) ==> Complete(e, s, hits)
  {
    output, replacements, hits := [], 0, Nothing;
    var pos := 0;
    ghost var from := 0;
    while pos <= |s|
      invariant ctx.Valid() && replacements == Count(hits)
      invariant Written(s, rewrite, hits, pos, from, output)
      invariant Proper(e, s, hits, Certain(e, s))
      decreases |s| - pos
    {
      var next;
      output, next, hits := ReplaceNext(e, s, rewrite, ctx, pos, output, from, hits);
      if next.Done? {
        return;
      }
      replacements := replacements + 1;
      if next.Last? {
        return;
      }
      pos, from := next.pos, NextFrom(hits);
    }
  }

  lemma RejoinCut(s: seq<Byte>, k: nat)
    requires k <= |s|
    ensures s[..k] + s[k..] == s
  {
  }

  /** With the template \0, replacement leaves any text unchanged. */
  method ReplaceByItself(e: RegexEngine, s: seq<Byte>, ctx: MatchContext) returns (output: seq<Byte>)
    requires ctx.Valid() && (e.errorCode == NoError ==> e.Ready())
    modifies ctx
    ensures ctx.Valid() && output == s
  {
    var rewrite: seq<Byte> := [BACKSLASH, 48];
    var replacements;
    ghost var hits;
    output, replacements, hits := GlobalReplace(e, s, rewrite, ctx);
    ReplacedByItself(s, hits);
    RejoinCut(s, End(s, hits));
  }
}
