// The two matchers of regex_engine.h give one answer, from the written
// pattern on, and the answer is determined by the pattern and the text.

module Agreement {
  import opened Options
  import opened Utf8
  import opened RuneClasses
  import opened RegexSemantics
  import opened Postfix
  import opened ScanMachine
  import opened PatternSyntax
  import T = TokenStreams
  import opened PatternRegexes
  import opened WrittenMeaning
  import opened Reachability
  import opened Engine
  import P = CapturePaths
  import opened CaptureMatch
  import opened Compile

  lemma OffsetsDistinct(classes: seq<RuneClass>, s: seq<Byte>, atStart: bool, prevWord: bool, a: nat, b: nat)
    requires a < b <= |Runes(s, 0)|
    ensures SubjectOf(classes, s, atStart, prevWord).offsets[a] < SubjectOf(classes, s, atStart, prevWord).offsets[b]
  {
    OffsetIncreases(s, 0, a, b);
  }

  /** There is one longest prefix. */
  lemma LongestUnique(r: Option<Regex>, t: Subject, a: Option<nat>, b: Option<nat>)
    requires t.Valid() && IsLongestPrefix(r, t, a) && IsLongestPrefix(r, t, b)
    ensures a == b
  {
    if a.Some? {
      var i :| 0 <= i <= |t.runes| && a.value == t.offsets[i] && IsLongest(r, t, Some(i));
      if b.Some? {
        var j :| 0 <= j <= |t.runes| && b.value == t.offsets[j] && IsLongest(r, t, Some(j));
      }
    }
  }

  /** With room for its captures, a report is determined by the engine and the text: its length and all captures. */
  lemma ReportUnique(e: RegexEngine, s: seq<Byte>, atStart: bool, prevWord: bool,
                     best: Option<nat>, captures: seq<Capture>, best': Option<nat>, captures': seq<Capture>)
    requires var t := SubjectOf(e.classes, s, atStart, prevWord);
             Room(e, t) && Reported(e, t, best, captures) && Reported(e, t, best', captures')
    ensures best == best' && (e.numCaptures > 0 ==> captures == captures')
  {
    var t := SubjectOf(e.classes, s, atStart, prevWord);
    LongestUnique(e.pattern, t, best, best');
    if best.Some? && e.numCaptures > 0 {
      var i, p :| 0 <= i <= |t.runes| && best.value == t.offsets[i] && P.Preferred(e.states, t, e.startState, 0, i, p) &&
                  captures == Spans(P.Replay(e.states, t, Unset(e.numCaptures), p));
      var j, q :| 0 <= j <= |t.runes| && best.value == t.offsets[j] && P.Preferred(e.states, t, e.startState, 0, j, q) &&
                  captures' == Spans(P.Replay(e.states, t, Unset(e.numCaptures), q));
      if i < j {
        OffsetsDistinct(e.classes, s, atStart, prevWord, i, j);
      } else if j < i {
        OffsetsDistinct(e.classes, s, atStart, prevWord, j, i);
      }
      P.PreferredUnique(e.states, t, e.startState, 0, i, p, q);
    }
  }

  /** The length is that of the longest prefix the written pattern describes, if it describes one. */
  ghost predicate Described(x: Pattern, t: Subject, len: Option<nat>)
    requires t.Valid()
  {
    match len
    case None => LongestDescribed(x, t, None)
    case Some(n) => exists j: nat :: j <= |t.runes| && n == t.offsets[j] && LongestDescribed(x, t, Some(j))
  }

  /** Every operator has its operands, and every class a right label. */
  ghost predicate Meaningful(x: Pattern)
  {
    Complete(x) && PatternLabelled(x, T.UNNUMBERED)
  }

  /**
   * Compiles a written pattern and matches a text with both matchers. Both
   * report the longest prefix that the pattern describes; the captures come
   * from the run an ideal backtracking matcher prefers.
   */
  method MatchBothWays(x: Pattern, readers: Readers, s: seq<Byte>, atStart: bool, prevWord: bool)
      returns (e: RegexEngine, plain: Option<nat>, best: Option<nat>, captures: seq<Capture>)
    requires readers.Sound() && Readable(readers, x)
    ensures e.errorCode != NoError ==> plain == None && best == None && captures == []
    ensures e.errorCode == NoError ==> BuiltFor(e, x)
    ensures var t := SubjectOf(e.classes, s, atStart, prevWord);
            e.errorCode == NoError ==>
              && IsLongestPrefix(e.pattern, t, plain) && (Meaningful(x) ==> Described(x, t, plain))
              && Reported(e, t, best, captures) && (Room(e, t) ==> best == plain)
  {
    e := CompilePattern(x, readers);
    var ctx := new MatchContext();
    plain := e.FindPrefixNoncapturing(s, ctx, atStart, prevWord);
    best, captures := FindPrefixWithContext(e, s, ctx, atStart, prevWord);
    if e.errorCode == NoError {
      var t := SubjectOf(e.classes, s, atStart, prevWord);
      if Meaningful(x) {
        LongestMeaning(e, x, t, plain);
      }
      if Room(e, t) {
        LongestUnique(e.pattern, t, plain, best);
      }
    }
  }
}
