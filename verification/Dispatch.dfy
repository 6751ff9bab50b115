// First-byte dispatch over a list of regexes: compute_first_char_info in
// regex_engine.h and TRegexSet in regex.h.

module Dispatch {
  import opened Options
  import opened Utf8
  import opened RuneClasses
  import opened RegexSemantics
  import opened Postfix
  import opened Nfa
  import opened Reachability
  import opened Closures
  import opened Engine
  import opened CaptureMatch
  import opened EmptyMatches

  /** Which first bytes a match can begin with. */
  datatype FirstCharInfo = FirstCharInfo(bitmap: seq<bool>, canMatchEmpty: bool, canMatchNonascii: bool)

  predicate NonasciiState(tag: Label, classes: seq<RuneClass>)
  {
    match tag
    case Class(k) => k < |classes| && exists j :: 0 <= j < |classes[k].ranges| && classes[k].ranges[j].1 >= ASCII_SIZE
    case Lit(r) => r >= ASCII_SIZE
    case _ => false
  }

  /** The states that some boundary conditions connect to the start state. */
  ghost predicate Initial(e: RegexEngine, d: nat)
    requires e.Ready()
  {
    exists f: Flags :: d in Closure(e.states, f, e.startState)
  }

  /** The info of the states in `seen`: what one of them accepts, and whether the accept state is among them. */
  ghost predicate Summarizes(info: FirstCharInfo, e: RegexEngine, seen: set<nat>)
    requires e.Ready()
  {
    && |info.bitmap| == ASCII_SIZE
    && (info.canMatchEmpty <==> 0 in seen)
    && (forall b :: 0 <= b < ASCII_SIZE ==>
         (info.bitmap[b] <==> exists d :: d in seen && d != 0 && d < |e.states| && Accepts(e.classes, e.states[d].tag, b)))
    && (info.canMatchNonascii <==> exists d :: d in seen && d != 0 && d < |e.states| && NonasciiState(e.states[d].tag, e.classes))
  }

  function Minimal(): FirstCharInfo { FirstCharInfo(seq(ASCII_SIZE, _ => false), false, false) }

  function Maximal(): FirstCharInfo { FirstCharInfo(seq(ASCII_SIZE, _ => true), true, true) }

  function AddState(info: FirstCharInfo, e: RegexEngine, s: nat): FirstCharInfo
    requires |info.bitmap| == ASCII_SIZE && s < |e.states| && s < |e.asciiAccept| && |e.asciiAccept[s]| == ASCII_SIZE
  {
    if s == e.acceptState then info.(canMatchEmpty := true)
    else
      info.(bitmap := seq(ASCII_SIZE, b requires 0 <= b < ASCII_SIZE => info.bitmap[b] || e.asciiAccept[s][b]),
            canMatchNonascii := info.canMatchNonascii || NonasciiState(e.states[s].tag, e.classes))
  }

  lemma {:induction false} AddStateSummarizes(info: FirstCharInfo, e: RegexEngine, seen: set<nat>, s: nat)
    requires e.Ready() && Summarizes(info, e, seen) && s < |e.states|
    ensures |e.asciiAccept[s]| == ASCII_SIZE
    ensures Summarizes(AddState(info, e, s), e, seen + {s})
  {
    AsciiBitmapSize(e.states[s].tag, e.classes);
    forall b | 0 <= b < ASCII_SIZE
      ensures e.asciiAccept[s][b] <==> Accepts(e.classes, e.states[s].tag, b)
    {
      AsciiBitmapAgrees(e.states[s].tag, e.classes, b);
    }
  }

  ghost predicate AreInitial(e: RegexEngine, seen: set<nat>)
    requires e.Ready()
  {
    forall d: nat :: d in seen <==> Initial(e, d)
  }

  /** The info summarizes exactly the initial states. */
  ghost predicate Describes(info: FirstCharInfo, e: RegexEngine)
    requires e.Ready()
  {
    exists seen: set<nat> :: Summarizes(info, e, seen) && AreInitial(e, seen)
  }

  /** The flag combinations a cache distinguishes; without assertions one stands for all. */
  function ComboFlags(e: RegexEngine, bits: nat): Flags
  {
    if e.hasConditionals then FlagsOf(bits) else Flags(false, true, false)
  }

  ghost predicate SeenUpTo(e: RegexEngine, seen: set<nat>, bits: nat)
    requires e.Ready()
  {
    && (forall d: nat :: d in seen ==> exists b: nat :: b < bits && d in Closure(e.states, ComboFlags(e, b), e.startState))
    && (forall b: nat :: b < bits ==> Closure(e.states, ComboFlags(e, b), e.startState) <= seen)
  }

  lemma SeenAll(e: RegexEngine, seen: set<nat>, d: nat)
    requires e.Ready() && SeenUpTo(e, seen, Columns(e.hasConditionals))
    ensures d in seen <==> Initial(e, d)
  {
    if d in seen {
      var b: nat :| b < Columns(e.hasConditionals) && d in Closure(e.states, ComboFlags(e, b), e.startState);
    }
    if Initial(e, d) {
      var f: Flags :| d in Closure(e.states, f, e.startState);
      if e.hasConditionals {
        FlagBitsRoundTrip(f);
        assert d in Closure(e.states, ComboFlags(e, FlagBits(f)), e.startState);
      } else {
        UnconditionalClosure(e.states, f, ComboFlags(e, 0), e.startState);
        assert Closure(e.states, ComboFlags(e, 0), e.startState) <= seen;
      }
    }
  }

  lemma SeenNext(e: RegexEngine, seen: set<nat>, more: set<nat>, bits: nat)
    requires e.Ready() && SeenUpTo(e, seen, bits)
    requires more == seen + Closure(e.states, ComboFlags(e, bits), e.startState)
    ensures SeenUpTo(e, more, bits + 1)
  {
  }

  lemma SeenDone(e: RegexEngine, seen: set<nat>)
    requires e.Ready() && SeenUpTo(e, seen, Columns(e.hasConditionals))
    ensures AreInitial(e, seen)
  {
    forall d: nat
      ensures d in seen <==> Initial(e, d)
    {
      SeenAll(e, seen, d);
    }
  }

  /** Collects what the states can accept that are reachable before the first rune is read. */
  method ComputeFirstCharInfo(e: RegexEngine) returns (info: FirstCharInfo)
    requires e.errorCode == NoError ==> e.Ready()
    ensures |info.bitmap| == ASCII_SIZE
    ensures e.errorCode != NoError ==> info == Maximal()
    ensures e.errorCode == NoError ==> Describes(info, e)
  {
    if e.errorCode != NoError {
      return Maximal();
    }
    info := Minimal();
    ghost var seen: set<nat> := {};
    for bits := 0 to Columns(e.hasConditionals)
      invariant Summarizes(info, e, seen) && SeenUpTo(e, seen, bits)
    {
      var f := ComboFlags(e, bits);
      LookupIsClosure(e.cache, e.states, e.startState, f);
      ghost var before := seen;
      info, seen := AddClosure(e, info, e.cache.Lookup(e.startState, f), f, seen);
      SeenNext(e, before, seen, bits);
    }
    SeenDone(e, seen);
  }

  method AddClosure(e: RegexEngine, info: FirstCharInfo, closure: seq<nat>, ghost f: Flags, ghost seen: set<nat>)
      returns (result: FirstCharInfo, ghost more: set<nat>)
    requires e.Ready() && Summarizes(info, e, seen) && ListsClosure(closure, e.states, f, e.startState)
    ensures Summarizes(result, e, more) && more == seen + Closure(e.states, f, e.startState)
  {
    result, more := info, seen;
    for i := 0 to |closure|
      invariant Summarizes(result, e, more)
      invariant more == seen + set j | 0 <= j < i :: closure[j]
    {
      assert closure[i] in Closure(e.states, f, e.startState);
      AddStateSummarizes(result, e, more, closure[i]);
      result, more := AddState(result, e, closure[i]), more + {closure[i]};
    }
    assert (set j | 0 <= j < |closure| :: closure[j]) == Closure(e.states, f, e.startState) by {
      forall d: nat | d in Closure(e.states, f, e.startState)
        ensures d in set j | 0 <= j < |closure| :: closure[j]
      {
        var j :| 0 <= j < |closure| && closure[j] == d;
      }
    }
  }

  // ---------------------------------------------------------------------
  // Soundness
  // ---------------------------------------------------------------------

  /** A multi-byte sequence at the front does not spell an ASCII rune. */
  predicate HonestFirst(s: seq<Byte>)
  {
    s != [] && s[0] >= ASCII_SIZE ==> DecodeRune(s, 0).rune >= ASCII_SIZE
  }

  lemma NoOverlongIsHonest(s: seq<Byte>)
    requires NoOverlongAscii(s)
    ensures HonestFirst(s)
  {
    if s != [] {
      DecodeAt(s, 0, 0);
      assert RuneAt(s, 0) == DecodeRune(s, 0);
    }
  }

  predicate Candidate(info: FirstCharInfo, b: nat)
    requires |info.bitmap| == ASCII_SIZE
  {
    info.canMatchEmpty || if b < ASCII_SIZE then info.bitmap[b] else info.canMatchNonascii
  }

  /** A prefix of the text matches. */
  ghost predicate MatchesPrefix(e: RegexEngine, s: seq<Byte>)
  {
    e.errorCode == NoError &&
    exists j: nat :: j <= |Runes(s, 0)| && PatternMatches(e.pattern, SubjectOf(e.classes, s, true, false), 0, j)
  }

  /** A non-empty match begins with a rune that an initial state accepts. */
  lemma FirstRuneAccepted(e: RegexEngine, t: Subject, j: nat) returns (d: nat)
    requires e.Ready() && t.Valid() && t.classes == e.classes && 0 < j <= |t.runes| && PatternMatches(e.pattern, t, 0, j)
    ensures Initial(e, d) && d < |e.states| && Accepts(e.classes, e.states[d].tag, t.runes[0])
  {
    AcceptIffMatches(e.states, e.startState, e.pattern, t, j);
    if Alive(e.states, t, e.startState, 1) == {} {
      DeadStaysDead(e.states, t, e.startState, 1, j);
    }
    var y: nat :| y in Alive(e.states, t, e.startState, 1);
    assert Alive(e.states, t, e.startState, 1) == Advance(e.states, t, Alive(e.states, t, e.startState, 0), 0);
    d :| d in Alive(e.states, t, e.startState, 0) && y in Successors(e.states, t, d, 0);
    assert d in Closure(e.states, FlagsAt(t, 0), e.startState);
  }

  /** The info never rules out a regex that matches. */
  lemma {:induction false} CandidatesSuffice(e: RegexEngine, info: FirstCharInfo, s: seq<Byte>)
    requires e.Ready() && |info.bitmap| == ASCII_SIZE && Describes(info, e)
    requires s != [] && HonestFirst(s) && MatchesPrefix(e, s)
    ensures Candidate(info, s[0])
  {
    var seen: set<nat> :| Summarizes(info, e, seen) && AreInitial(e, seen);
    var t := SubjectOf(e.classes, s, true, false);
    var j: nat :| j <= |t.runes| && PatternMatches(e.pattern, t, 0, j);
    AcceptIffMatches(e.states, e.startState, e.pattern, t, j);
    if j == 0 {
      assert 0 in Closure(e.states, FlagsAt(t, 0), e.startState);
      assert Initial(e, 0);
    } else {
      var d := FirstRuneAccepted(e, t, j);
      assert e.states[0].tag.Match?;
      DecodeAt(s, 0, 0);
      var r := t.runes[0];
      if r < ASCII_SIZE {
        assert s[0] == r;
      } else {
        var tag := e.states[d].tag;
        assert NonasciiState(tag, e.classes);
      }
    }
  }

  // ---------------------------------------------------------------------
  // The dispatch table
  // ---------------------------------------------------------------------

  /** The first matching regex of a list. */
  ghost predicate IsFirstMatch(regexes: seq<RegexEngine>, s: seq<Byte>, result: Option<nat>)
  {
    match result
    case None => forall k :: 0 <= k < |regexes| ==> !MatchesPrefix(regexes[k], s)
    case Some(i) => i < |regexes| && MatchesPrefix(regexes[i], s) && forall k :: 0 <= k < i ==> !MatchesPrefix(regexes[k], s)
  }

  /** The indices of the candidates among the first `n` infos, in order. */
  function Candidates(infos: seq<FirstCharInfo>, n: nat, b: nat): (list: seq<nat>)
    requires n <= |infos| && forall k :: 0 <= k < |infos| ==> |infos[k].bitmap| == ASCII_SIZE
    ensures forall k: nat :: k in list <==> k < n && Candidate(infos[k], b)
    ensures forall i, j :: 0 <= i < j < |list| ==> list[i] < list[j]
  {
    if n == 0 then []
    else
      var front := Candidates(infos, n - 1, b);
      assert forall i :: 0 <= i < |front| ==> front[i] in front && front[i] < n - 1;
      front + if Candidate(infos[n - 1], b) then [n - 1] else []
  }

  lemma {:induction false} CandidatesKeep(infos: seq<FirstCharInfo>, info: FirstCharInfo, n: nat, b: nat)
    requires n == |infos| && |info.bitmap| == ASCII_SIZE && forall k :: 0 <= k < |infos| ==> |infos[k].bitmap| == ASCII_SIZE
    ensures Candidates(infos + [info], n + 1, b) == Candidates(infos, n, b) + if Candidate(info, b) then [n] else []
  {
    CandidatesPrefix(infos, info, n, b);
  }

  lemma CandidatesNext(infos: seq<FirstCharInfo>, info: FirstCharInfo, n: nat)
    requires n == |infos| && |info.bitmap| == ASCII_SIZE && forall k :: 0 <= k < |infos| ==> |infos[k].bitmap| == ASCII_SIZE
    ensures forall b: nat :: b <= ASCII_SIZE ==>
              Candidates(infos + [info], n + 1, b) == Candidates(infos, n, b) + if Candidate(info, b) then [n] else []
  {
    forall b: nat | b <= ASCII_SIZE
      ensures Candidates(infos + [info], n + 1, b) == Candidates(infos, n, b) + if Candidate(info, b) then [n] else []
    {
      CandidatesKeep(infos, info, n, b);
    }
  }

  lemma {:induction false} CandidatesPrefix(infos: seq<FirstCharInfo>, info: FirstCharInfo, n: nat, b: nat)
    requires n <= |infos| && |info.bitmap| == ASCII_SIZE && forall k :: 0 <= k < |infos| ==> |infos[k].bitmap| == ASCII_SIZE
    ensures Candidates(infos + [info], n, b) == Candidates(infos, n, b)
  {
    if n > 0 {
      CandidatesPrefix(infos, info, n - 1, b);
    }
  }

  /** Adds a regex to the lists of the ASCII bytes it is a candidate for. */
  method AppendCandidate(lists: seq<seq<nat>>, i: nat, info: FirstCharInfo) returns (ascii: seq<seq<nat>>)
    requires |lists| == ASCII_SIZE && |info.bitmap| == ASCII_SIZE
    ensures |ascii| == ASCII_SIZE
    ensures forall c :: 0 <= c < ASCII_SIZE ==> ascii[c] == lists[c] + if Candidate(info, c) then [i] else []
  {
    ascii := lists;
    for b := 0 to ASCII_SIZE
      invariant |ascii| == ASCII_SIZE
      invariant forall c :: 0 <= c < b ==> ascii[c] == lists[c] + if Candidate(info, c) then [i] else []
      invariant forall c :: b <= c < ASCII_SIZE ==> ascii[c] == lists[c]
    {
      if info.canMatchEmpty || info.bitmap[b] {
        ascii := ascii[b := ascii[b] + [i]];
      }
    }
  }

  ghost predicate AllUsable(regexes: seq<RegexEngine>)
  {
    forall e :: e in regexes && e.errorCode == NoError ==> e.Ready()
  }

  /** The engine has room for its captures on this text. */
  ghost predicate RoomFor(e: RegexEngine, s: seq<Byte>)
  {
    e.errorCode == NoError ==> Room(e, SubjectOf(e.classes, s, true, false))
  }

  ghost predicate RoomForAll(regexes: seq<RegexEngine>, s: seq<Byte>)
  {
    forall e :: e in regexes ==> RoomFor(e, s)
  }

  /** The first `k` of the listed regexes do not match. */
  ghost predicate NoneOf(regexes: seq<RegexEngine>, list: seq<nat>, k: nat, s: seq<Byte>)
  {
    forall j :: 0 <= j < k <= |list| && list[j] < |regexes| ==> !MatchesPrefix(regexes[list[j]], s)
  }

  /** What trying the listed regexes in order comes to. */
  ghost predicate FirstOfList(regexes: seq<RegexEngine>, list: seq<nat>, s: seq<Byte>, result: Option<nat>)
  {
    match result
    case None => NoneOf(regexes, list, |list|, s)
    case Some(i) => i < |regexes| && MatchesPrefix(regexes[i], s) && exists k :: 0 <= k < |list| && list[k] == i && NoneOf(regexes, list, k, s)
  }

  /** What is reported of the regex that matched. */
  ghost predicate FoundBy(regexes: seq<RegexEngine>, s: seq<Byte>, result: Option<nat>, len: Option<nat>, captures: seq<Capture>)
  {
    && (result.Some? <==> len.Some?)
    && (result.Some? ==>
         result.value < |regexes| && regexes[result.value].errorCode == NoError &&
         Reported(regexes[result.value], SubjectOf(regexes[result.value].classes, s, true, false), len, captures))
  }

  /** Tries one regex at the start of the text. */
  method TryMatch(e: RegexEngine, s: seq<Byte>, ctx: MatchContext) returns (len: Option<nat>, captures: seq<Capture>)
    requires ctx.Valid() && (e.errorCode == NoError ==> e.Ready())
    modifies ctx
    ensures ctx.Valid()
    ensures RoomFor(e, s) ==> (len.Some? <==> MatchesPrefix(e, s))
    ensures len.Some? ==> e.errorCode == NoError && Reported(e, SubjectOf(e.classes, s, true, false), len, captures)
  {
    len, captures := FindPrefixWithContext(e, s, ctx, true, false);
    if e.errorCode == NoError && RoomFor(e, s) && len.Some? {
      var t := SubjectOf(e.classes, s, true, false);
      ghost var b :| 0 <= b <= |t.runes| && len.value == t.offsets[b] && IsLongest(e.pattern, t, Some(b));
      assert PatternMatches(e.pattern, t, 0, b);
    }
  }

  /** Tries the listed regexes one by one. */
  method TryInOrder(regexes: seq<RegexEngine>, list: seq<nat>, s: seq<Byte>, ctx: MatchContext)
      returns (result: Option<nat>, len: Option<nat>, captures: seq<Capture>)
    requires AllUsable(regexes) && ctx.Valid() && forall j :: 0 <= j < |list| ==> list[j] < |regexes|
    modifies ctx
    ensures ctx.Valid()
    ensures RoomForAll(regexes, s) ==> FirstOfList(regexes, list, s, result)
    ensures FoundBy(regexes, s, result, len, captures)
  {
    result, len, captures := None, None, [];
    for k := 0 to |list|
      invariant ctx.Valid() && len == None
      invariant RoomForAll(regexes, s) ==> NoneOf(regexes, list, k, s)
    {
      var e := regexes[list[k]];
      assert e in regexes;
      len, captures := TryMatch(e, s, ctx);
      if len.Some? {
        result := Some(list[k]);
        return;
      }
    }
  }

  /** Trying only the candidates comes to the same as trying every regex. */
  lemma {:induction false} CandidatesDecide(regexes: seq<RegexEngine>, infos: seq<FirstCharInfo>, s: seq<Byte>, b: nat, result: Option<nat>)
    requires AllUsable(regexes) && |infos| == |regexes| && InfosFit(regexes, infos)
    requires s != [] && HonestFirst(s) && b == (if s[0] < ASCII_SIZE then s[0] else ASCII_SIZE)
    requires FirstOfList(regexes, Candidates(infos, |infos|, b), s, result)
    ensures IsFirstMatch(regexes, s, result)
  {
    var list := Candidates(infos, |infos|, b);
    forall k: nat | k < |regexes| && MatchesPrefix(regexes[k], s)
      ensures k in list
    {
      CandidatesSuffice(regexes[k], infos[k], s);
    }
    match result
    case None =>
      forall k: nat | k < |regexes|
        ensures !MatchesPrefix(regexes[k], s)
      {
        if k in list {
          var j :| 0 <= j < |list| && list[j] == k;
        }
      }
    case Some(i) =>
      var p :| 0 <= p < |list| && list[p] == i && NoneOf(regexes, list, p, s);
      forall k: nat | k < i
        ensures !MatchesPrefix(regexes[k], s)
      {
        if k in list {
          var j :| 0 <= j < |list| && list[j] == k;
          assert j < p;
        }
      }
  }

  /** The infos of the first regexes. */
  ghost predicate InfosFit(regexes: seq<RegexEngine>, infos: seq<FirstCharInfo>)
    requires AllUsable(regexes)
  {
    && |infos| <= |regexes|
    && forall k :: 0 <= k < |infos| ==>
         && |infos[k].bitmap| == ASCII_SIZE
         && if regexes[k].errorCode == NoError then Describes(infos[k], regexes[k]) else infos[k] == Maximal()
  }

  predicate ListsFit(ascii: seq<seq<nat>>, nonascii: seq<nat>, infos: seq<FirstCharInfo>)
    requires forall k :: 0 <= k < |infos| ==> |infos[k].bitmap| == ASCII_SIZE
  {
    && |ascii| == ASCII_SIZE
    && (forall b :: 0 <= b < ASCII_SIZE ==> ascii[b] == Candidates(infos, |infos|, b))
    && nonascii == Candidates(infos, |infos|, ASCII_SIZE)
  }

  /** The first info that can match the empty text. */
  predicate FirstEmpty(infos: seq<FirstCharInfo>, result: Option<nat>)
  {
    match result
    case None => forall k :: 0 <= k < |infos| ==> !infos[k].canMatchEmpty
    case Some(i) => i < |infos| && infos[i].canMatchEmpty && forall k :: 0 <= k < i ==> !infos[k].canMatchEmpty
  }

  lemma {:induction false} InfosFitNext(regexes: seq<RegexEngine>, infos: seq<FirstCharInfo>, info: FirstCharInfo)
    requires AllUsable(regexes) && InfosFit(regexes, infos) && |infos| < |regexes| && |info.bitmap| == ASCII_SIZE
    requires var e := regexes[|infos|]; if e.errorCode == NoError then Describes(info, e) else info == Maximal()
    ensures InfosFit(regexes, infos + [info])
  {
  }

  lemma FirstEmptyNext(infos: seq<FirstCharInfo>, result: Option<nat>, info: FirstCharInfo)
    requires FirstEmpty(infos, result)
    ensures FirstEmpty(infos + [info], if info.canMatchEmpty && result == None then Some(|infos|) else result)
  {
  }

  lemma ListsFitNext(ascii: seq<seq<nat>>, nonascii: seq<nat>, infos: seq<FirstCharInfo>, info: FirstCharInfo,
                     ascii': seq<seq<nat>>, nonascii': seq<nat>)
    requires |info.bitmap| == ASCII_SIZE && forall k :: 0 <= k < |infos| ==> |infos[k].bitmap| == ASCII_SIZE
    requires ListsFit(ascii, nonascii, infos)
    requires |ascii'| == ASCII_SIZE
    requires forall b :: 0 <= b < ASCII_SIZE ==> ascii'[b] == ascii[b] + if Candidate(info, b) then [|infos|] else []
    requires nonascii' == nonascii + if Candidate(info, ASCII_SIZE) then [|infos|] else []
    ensures ListsFit(ascii', nonascii', infos + [info])
  {
    CandidatesNext(infos, info, |infos|);
  }

  class TRegexSet {
    const regexes: seq<RegexEngine>
    var asciiCandidates: seq<seq<nat>>
    var nonasciiCandidates: seq<nat>
    var emptyMatchIndex: Option<nat>
    ghost var infos: seq<FirstCharInfo>

    ghost predicate Usable()
    {
      AllUsable(regexes)
    }

    /** The table for the first `n` regexes. */
    ghost predicate TableUpTo(n: nat)
      requires Usable()
      reads this
    {
      && |infos| == n && InfosFit(regexes, infos)
      && ListsFit(asciiCandidates, nonasciiCandidates, infos)
      && FirstEmpty(infos, emptyMatchIndex)
    }

    ghost predicate Valid()
      reads this
    {
      Usable() && TableUpTo(|regexes|)
    }

    /** Builds the table; regexes that can match nothing yet are candidates for every first byte. */
    constructor (regexes: seq<RegexEngine>)
      requires forall e :: e in regexes && e.errorCode == NoError ==> e.Ready()
      ensures Valid() && this.regexes == regexes
    {
      this.regexes := regexes;
      asciiCandidates, nonasciiCandidates := seq(ASCII_SIZE, _ => []), [];
      emptyMatchIndex, infos := None, [];
      new;
      for i := 0 to |regexes|
        invariant this.regexes == regexes && TableUpTo(i)
      {
        var info := ComputeFirstCharInfo(regexes[i]);
        AddRegex(i, info);
      }
    }

    method AddRegex(i: nat, info: FirstCharInfo)
      requires Usable() && i < |regexes| && TableUpTo(i) && |info.bitmap| == ASCII_SIZE
      requires if regexes[i].errorCode == NoError then Describes(info, regexes[i]) else info == Maximal()
      modifies this
      ensures TableUpTo(i + 1)
    {
      ghost var before := infos;
      InfosFitNext(regexes, infos, info);
      FirstEmptyNext(infos, emptyMatchIndex, info);
      infos := infos + [info];
      if info.canMatchEmpty && emptyMatchIndex == None {
        emptyMatchIndex := Some(i);
      }
      asciiCandidates := AppendCandidate(asciiCandidates, i, info);
      if info.canMatchEmpty || info.canMatchNonascii {
        nonasciiCandidates := nonasciiCandidates + [i];
      } else {
        assert nonasciiCandidates + [] == nonasciiCandidates;
      }
      ListsFitNext(old(asciiCandidates), old(nonasciiCandidates), before, info, asciiCandidates, nonasciiCandidates);
    }

    /**
     * The first regex that matches a prefix of the text. On a non-empty text
     * only the candidates for its first byte are tried; the answer is that of
     * trying every regex in order.
     */
    method Match(s: seq<Byte>, ctx: MatchContext)
      returns (result: Option<nat>, len: Option<nat>, captures: seq<Capture>)
      requires Valid() && ctx.Valid()
      modifies ctx
      ensures ctx.Valid()
      ensures s != [] && HonestFirst(s) && RoomForAll(regexes, s) ==> IsFirstMatch(regexes, s, result)
      ensures s != [] ==> FoundBy(regexes, s, result, len, captures)
      ensures s == [] ==> result == emptyMatchIndex
    {
      if s == [] {
        len, captures := None, [];
        if emptyMatchIndex.Some? {
          len, captures := FindPrefixWithContext(regexes[emptyMatchIndex.value], s, ctx, true, false);
        }
        return emptyMatchIndex, len, captures;
      }
      var first := s[0];
      var candidates := if first < ASCII_SIZE then asciiCandidates[first] else nonasciiCandidates;
      ghost var b: nat := if first < ASCII_SIZE then first else ASCII_SIZE;
      ListedExist(b, candidates);
      result, len, captures := TryInOrder(regexes, candidates, s, ctx);
      if HonestFirst(s) && RoomForAll(regexes, s) {
        CandidatesDecide(regexes, infos, s, b, result);
      }
    }

    lemma ListedExist(b: nat, list: seq<nat>)
      requires Valid() && list == Candidates(infos, |regexes|, b)
      ensures forall j :: 0 <= j < |list| ==> list[j] < |regexes|
    {
      forall j | 0 <= j < |list|
        ensures list[j] < |regexes|
      {
        assert list[j] in list;
      }
    }
  }

  // ---------------------------------------------------------------------
  // The empty view
  // ---------------------------------------------------------------------

  /** The conditions on an empty text. */
  const NO_TEXT: Flags := Flags(false, true, true)

  /** The regex accepts the empty string under the given conditions. */
  ghost predicate EmptyUnder(e: RegexEngine, f: Flags)
  {
    e.errorCode == NoError && NullablePattern(e.pattern, f)
  }

  /** The regexes the table lists for the empty text: those that failed to compile, and those that some conditions let match it. */
  ghost predicate Listed(e: RegexEngine)
  {
    e.errorCode != NoError || exists f: Flags :: EmptyUnder(e, f)
  }

  lemma AcceptsIffEmpty(e: RegexEngine, f: Flags)
    requires e.Ready()
    ensures 0 in Closure(e.states, f, e.startState) <==> EmptyUnder(e, f)
  {
    var t := TextWith(f, Subject(e.classes, [], [0], false, false));
    AcceptIffMatches(e.states, e.startState, e.pattern, t, 0);
    assert Alive(e.states, t, e.startState, 0) == Closure(e.states, f, e.startState);
    if e.pattern.Some? {
      NullableMatches(e.pattern.value, t, 0);
    }
  }

  /** The table's flag for the empty text, in terms of the pattern. */
  lemma CanMatchEmptyIff(e: RegexEngine, info: FirstCharInfo)
    requires e.Ready() && |info.bitmap| == ASCII_SIZE && Describes(info, e)
    ensures info.canMatchEmpty <==> Listed(e)
  {
    var seen: set<nat> :| Summarizes(info, e, seen) && AreInitial(e, seen);
    assert 0 in seen <==> Initial(e, 0);
    if Initial(e, 0) {
      var f: Flags :| 0 in Closure(e.states, f, e.startState);
      AcceptsIffEmpty(e, f);
    }
    if f: Flags :| EmptyUnder(e, f) {
      AcceptsIffEmpty(e, f);
    }
  }

  lemma MatchesEmptyIff(e: RegexEngine)
    requires e.errorCode == NoError ==> e.Ready()
    ensures MatchesPrefix(e, []) <==> EmptyUnder(e, NO_TEXT)
  {
    var t := SubjectOf(e.classes, [], true, false);
    assert t.runes == [] && FlagsAt(t, 0) == NO_TEXT;
    if e.pattern.Some? {
      NullableMatches(e.pattern.value, t, 0);
    }
    assert PatternMatches(e.pattern, t, 0, 0) <==> NullablePattern(e.pattern, NO_TEXT);
    assert |t.runes| == |Runes([], 0)| == 0;
  }

  /** No earlier regex is listed. */
  ghost predicate FirstListed(regexes: seq<RegexEngine>, k: nat)
    requires k < |regexes|
  {
    Listed(regexes[k]) && forall j :: 0 <= j < k ==> !Listed(regexes[j])
  }

  /**
   * On an empty text the answer comes from the table alone. It is the first
   * match exactly if the first regex that could match the empty string under
   * some conditions does so under those of an empty text.
   */
  lemma {:induction false} EmptyViewAnswer(regexes: seq<RegexEngine>, infos: seq<FirstCharInfo>, result: Option<nat>)
    requires AllUsable(regexes) && |infos| == |regexes| && InfosFit(regexes, infos)
    requires FirstEmpty(infos, result)
    ensures IsFirstMatch(regexes, [], result) <==>
            forall k: nat :: k < |regexes| && FirstListed(regexes, k) ==> EmptyUnder(regexes[k], NO_TEXT)
  {
    forall k: nat | k < |regexes|
      ensures infos[k].canMatchEmpty <==> Listed(regexes[k])
      ensures MatchesPrefix(regexes[k], []) <==> EmptyUnder(regexes[k], NO_TEXT)
      ensures MatchesPrefix(regexes[k], []) ==> Listed(regexes[k])
    {
      if regexes[k].errorCode == NoError {
        CanMatchEmptyIff(regexes[k], infos[k]);
      }
      MatchesEmptyIff(regexes[k]);
    }
    if result.Some? {
      assert FirstListed(regexes, result.value);
    }
  }

  /** A lone word boundary is listed for the empty text but does not match it. */
  lemma EmptyViewMisleads(e: RegexEngine, info: FirstCharInfo)
    requires e.Ready() && e.pattern == Some(Leaf(WordBoundary)) && |info.bitmap| == ASCII_SIZE && Describes(info, e)
    ensures info.canMatchEmpty && !MatchesPrefix(e, [])
  {
    CanMatchEmptyIff(e, info);
    MatchesEmptyIff(e);
    assert EmptyUnder(e, Flags(true, true, true));
  }

  /** The first state of a literal is the only one that is reached before a rune is read. */
  lemma LiteralInitial(e: RegexEngine, r: Rune, d: nat)
    requires e.Ready() && e.pattern == Some(Leaf(Lit(r))) && Initial(e, d)
    ensures d == e.startState && e.states[d].tag == Lit(r)
  {
    assert e.startState == Entry(Leaf(Lit(r)), 1) && e.states[e.startState].tag == Lit(r);
    var f: Flags :| d in Closure(e.states, f, e.startState);
    var n: nat :| EpsRun(e.states, f, n, e.startState, d);
    assert n == 0;
  }

  /**
   * Where the first rune of a text is an ASCII one in more than one byte, the
   * literal for it matches, but is no candidate. So no text can be left out of
   * the honest ones.
   */
  lemma {:induction false} DishonestMisleads(e: RegexEngine, info: FirstCharInfo, s: seq<Byte>)
    requires s != [] && !HonestFirst(s)
    requires e.Ready() && e.pattern == Some(Leaf(Lit(DecodeRune(s, 0).rune))) && |info.bitmap| == ASCII_SIZE && Describes(info, e)
    ensures s[0] >= ASCII_SIZE && !Candidate(info, ASCII_SIZE) && MatchesPrefix(e, s)
  {
    var r := DecodeRune(s, 0).rune;
    CanMatchEmptyIff(e, info);
    assert forall f: Flags :: !EmptyUnder(e, f);
    var seen: set<nat> :| Summarizes(info, e, seen) && AreInitial(e, seen);
    forall d | d in seen
      ensures d >= |e.states| || !NonasciiState(e.states[d].tag, e.classes)
    {
      LiteralInitial(e, r, d);
    }
    assert PatternMatches(e.pattern, SubjectOf(e.classes, s, true, false), 0, 1);
  }
}
