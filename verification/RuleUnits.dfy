/** The two rule families of the extractor, which quote whole sentences.

    The matches of the patterns are given: spans of the text, in the order in
    which they are found. */
module RuleUnits {
  import opened Text
  import Evidence

  datatype Span = Span(start: nat, end: nat)

  predicate InText(text: string, m: Span) {
    m.start <= m.end <= |text|
  }

  /** Where the sentence around a position begins. */
  function Begin(text: string, start: nat): (b: nat)
    requires start <= |text|
    ensures b <= start
  {
    if start > 0 && !Evidence.IsDelimiter(text[start - 1]) then Begin(text, start - 1) else start
  }

  /** Where it ends, before its closing mark. */
  function Finish(text: string, end: nat): (f: nat)
    requires end <= |text|
    ensures end <= f <= |text|
    decreases |text| - end
  {
    if end < |text| && !Evidence.IsDelimiter(text[end]) then Finish(text, end + 1) else end
  }

  function Closed(text: string, f: nat): (e: nat)
    requires f <= |text|
    ensures f <= e <= |text|
  {
    if f < |text| && text[f] != '\n' then f + 1 else f
  }

  /** The sentence with its closing mark, unless that is a line break. */
  function Sentence(text: string, m: Span): string
    requires InText(text, m)
  {
    Strip(text[Begin(text, m.start)..Closed(text, Finish(text, m.end))])
  }

  method SentenceContaining(text: string, m: Span) returns (s: string)
    requires InText(text, m)
    ensures s == Sentence(text, m)
  {
    var begin := m.start;
    while begin > 0 && !Evidence.IsDelimiter(text[begin - 1])
      invariant 0 <= begin <= m.start && Begin(text, begin) == Begin(text, m.start)
    {
      begin := begin - 1;
    }
    var finish := m.end;
    while finish < |text| && !Evidence.IsDelimiter(text[finish])
      invariant m.end <= finish <= |text| && Finish(text, finish) == Finish(text, m.end)
    {
      finish := finish + 1;
    }
    assert begin == Begin(text, m.start) && finish == Finish(text, m.end);
    if finish < |text| && text[finish] != '\n' {
      finish := finish + 1;
    }
    assert finish == Closed(text, Finish(text, m.end));
    s := Strip(text[begin..finish]);
  }

  /** The sentence runs from one sentence end to the next, with none between. */
  lemma {:induction false} BeginsAfterAnEnd(text: string, start: nat)
    requires start <= |text|
    ensures Begin(text, start) > 0 ==> Evidence.IsDelimiter(text[Begin(text, start) - 1])
    ensures forall k | Begin(text, start) <= k < start :: !Evidence.IsDelimiter(text[k])
  {
    if start > 0 && !Evidence.IsDelimiter(text[start - 1]) {
      BeginsAfterAnEnd(text, start - 1);
    }
  }

  lemma {:induction false} FinishesAtAnEnd(text: string, end: nat)
    requires end <= |text|
    ensures Finish(text, end) < |text| ==> Evidence.IsDelimiter(text[Finish(text, end)])
    ensures forall k | end <= k < Finish(text, end) :: !Evidence.IsDelimiter(text[k])
    decreases |text| - end
  {
    if end < |text| && !Evidence.IsDelimiter(text[end]) {
      FinishesAtAnEnd(text, end + 1);
    }
  }

  lemma SliceIsContained(s: string, i: nat, j: nat)
    requires i <= j <= |s|
    ensures Contains(s, s[i..j])
  {
    ContainsMiddle(s[..i], s[i..j], s[j..]);
    assert s[..i] + s[i..j] + s[j..] == s;
  }

  lemma SliceOfSlice(s: string, a: nat, b: nat, i: nat, j: nat)
    requires a <= i <= j <= b <= |s|
    ensures s[a..b][i - a..j - a] == s[i..j] && Contains(s[a..b], s[i..j])
  {
    var t := s[a..b];
    assert forall k | 0 <= k < j - i :: t[i - a..j - a][k] == t[i - a + k] == s[i + k] == s[i..j][k];
    SliceIsContained(t, i - a, j - a);
  }

  lemma LeadStopsAt(s: string, i: nat)
    requires i < |s| && !IsSpace(s[i])
    ensures Lead(s, 0) <= i
  {
  }

  lemma TrailStopsAt(s: string, a: nat, j: nat)
    requires a < j <= |s| && !IsSpace(s[j - 1])
    ensures j <= Trail(s, a, |s|)
  {
  }

  /** Stripping removes nothing between two characters that are no spaces. */
  lemma StripCovers(s: string, i: nat, j: nat)
    requires i < j <= |s| && !IsSpace(s[i]) && !IsSpace(s[j - 1])
    ensures Contains(Strip(s), s[i..j])
  {
    LeadStopsAt(s, i);
    TrailStopsAt(s, Lead(s, 0), j);
    SliceOfSlice(s, Lead(s, 0), Trail(s, Lead(s, 0), |s|), i, j);
  }

  lemma StripIsContained(s: string)
    ensures Contains(s, Strip(s))
  {
    SliceIsContained(s, Lead(s, 0), Trail(s, Lead(s, 0), |s|));
  }

  lemma StripKeepsPiece(text: string, b: nat, e: nat, i: nat, j: nat)
    requires b <= i < j <= e <= |text| && !IsSpace(text[i]) && !IsSpace(text[j - 1])
    ensures Contains(Strip(text[b..e]), text[i..j])
  {
    var s := text[b..e];
    SliceOfSlice(text, b, e, i, j);
    assert s[i - b] == text[i] && s[j - b - 1] == text[j - 1];
    StripCovers(s, i - b, j - b);
  }

  lemma SentenceIsInText(text: string, m: Span)
    requires InText(text, m)
    ensures Contains(text, Sentence(text, m))
  {
    var b, e := Begin(text, m.start), Closed(text, Finish(text, m.end));
    var s := text[b..e];
    SliceIsContained(text, b, e);
    StripIsContained(s);
    ContainsTransitive(text, s, Strip(s));
  }

  /** A quoted sentence is a contiguous piece of the text, and it holds the whole
      match when the match neither begins nor ends with white space. */
  lemma SentenceCoversMatch(text: string, m: Span)
    requires InText(text, m)
    ensures Contains(text, Sentence(text, m))
    ensures m.start < m.end && !IsSpace(text[m.start]) && !IsSpace(text[m.end - 1]) ==>
              Contains(Sentence(text, m), text[m.start..m.end])
  {
    SentenceIsInText(text, m);
    if m.start < m.end && !IsSpace(text[m.start]) && !IsSpace(text[m.end - 1]) {
      StripKeepsPiece(text, Begin(text, m.start), Closed(text, Finish(text, m.end)), m.start, m.end);
    }
  }

  lemma {:induction false} SameBegin(text: string, i: nat, j: nat)
    requires i <= j <= |text| && forall k | i <= k < j :: !Evidence.IsDelimiter(text[k])
    ensures Begin(text, i) == Begin(text, j)
    decreases j - i
  {
    if i < j {
      SameBegin(text, i, j - 1);
    }
  }

  lemma {:induction false} SameFinish(text: string, i: nat, j: nat)
    requires i <= j <= |text| && forall k | i <= k < j :: !Evidence.IsDelimiter(text[k])
    ensures Finish(text, i) == Finish(text, j)
    decreases j - i
  {
    if i < j {
      SameFinish(text, i + 1, j);
    }
  }

  /** The sentence of a match is the stretch around it without a sentence end, its
      closing mark unless that is a line break, and no white space at either end. */
  lemma SentenceIs(text: string, m: Span, b: nat, e: nat)
    requires b <= m.start <= m.end <= e <= |text|
    requires b == 0 || Evidence.IsDelimiter(text[b - 1])
    requires e == |text| || Evidence.IsDelimiter(text[e])
    requires forall k | b <= k < m.start || m.end <= k < e :: !Evidence.IsDelimiter(text[k])
    ensures Sentence(text, m) == Strip(text[b..if e < |text| && text[e] != '\n' then e + 1 else e])
  {
    SameBegin(text, b, m.start);
    SameFinish(text, m.end, e);
  }

  /** Two matches with no sentence end from the one to the other are quoted by
      the same sentence. */
  lemma OneSentenceForBoth(text: string, m: Span, o: Span)
    requires InText(text, m) && InText(text, o) && m.start <= o.start
    requires forall k | m.start <= k < m.end || m.start <= k < o.end :: !Evidence.IsDelimiter(text[k])
    ensures Sentence(text, m) == Sentence(text, o)
  {
    SameBegin(text, m.start, o.start);
    if m.end <= o.end {
      SameFinish(text, m.end, o.end);
    } else {
      SameFinish(text, o.end, m.end);
    }
  }

  // ---- the families ---------------------------------------------------

  predicate AllInText(text: string, spans: seq<Span>) {
    forall i | 0 <= i < |spans| :: InText(text, spans[i])
  }

  /** The sentences a family quotes: each once, and none already taken. */
  function Quoted(text: string, spans: seq<Span>, taken: set<string>): seq<string>
    requires AllInText(text, spans)
  {
    if spans == [] then []
    else
      var rest := Quoted(text, spans[..|spans| - 1], taken);
      var s := Sentence(text, spans[|spans| - 1]);
      if s != "" && s !in rest && s !in taken then rest + [s] else rest
  }

  function Flat(groups: seq<seq<Span>>): seq<Span> {
    if groups == [] then [] else Flat(groups[..|groups| - 1]) + groups[|groups| - 1]
  }

  lemma StillInText(text: string, seen: seq<Span>, matches: seq<Span>, i: nat)
    requires AllInText(text, seen + matches) && i < |matches|
    ensures AllInText(text, seen + matches[..i]) && InText(text, matches[i])
  {
    assert (seen + matches)[|seen| + i] == matches[i];
    assert forall k | 0 <= k < |seen| + i :: (seen + matches[..i])[k] == (seen + matches)[k];
  }

  /** The matches of one more pattern. */
  method QuoteMore(text: string, sentences: seq<string>, ghost seen: seq<Span>, matches: seq<Span>) returns (more: seq<string>)
    requires AllInText(text, seen + matches) && sentences == QuotedAll(text, seen)
    ensures more == QuotedAll(text, seen + matches)
  {
    more := sentences;
    assert seen + matches[..0] == seen;
    for i := 0 to |matches|
      invariant more == QuotedAll(text, seen + matches[..i])
    {
      var m := matches[i];
      StillInText(text, seen, matches, i);
      var s := SentenceContaining(text, m);
      QuotedMore(text, seen + matches[..i], m);
      OneTaken(seen, matches, i);
      if s != "" && s !in more {
        more := more + [s];
      }
    }
    OneTaken(seen, matches, |matches|);
  }

  lemma OneTaken(seen: seq<Span>, matches: seq<Span>, i: nat)
    requires i <= |matches|
    ensures if i < |matches| then seen + matches[..i + 1] == seen + matches[..i] + [matches[i]] else matches[..i] == matches
  {
  }

  lemma QuotedMore(text: string, spans: seq<Span>, m: Span)
    requires AllInText(text, spans) && InText(text, m)
    ensures AllInText(text, spans + [m])
    ensures
      var s := Sentence(text, m);
      var rest := QuotedAll(text, spans);
      QuotedAll(text, spans + [m]) == if s != "" && s !in rest then rest + [s] else rest
  {
    assert (spans + [m])[..|spans|] == spans;
  }

  /** Nothing taken before, and nothing quoted of spans outside the text. */
  function QuotedAll(text: string, spans: seq<Span>): seq<string> {
    if AllInText(text, spans) then Quoted(text, spans, {}) else []
  }

  method DisciplineUnits(text: string, patterns: seq<seq<Span>>) returns (sentences: seq<string>)
    requires AllInText(text, Flat(patterns))
    ensures sentences == Quoted(text, Flat(patterns), {})
  {
    sentences := [];
    for p := 0 to |patterns|
      invariant sentences == QuotedAll(text, Flat(patterns[..p]))
    {
      assert patterns[..p + 1][..p] == patterns[..p];
      FlatPrefix(patterns, p + 1);
      assert AllInText(text, Flat(patterns[..p + 1]));
      sentences := QuoteMore(text, sentences, Flat(patterns[..p]), patterns[p]);
    }
    assert patterns[..|patterns|] == patterns;
  }

  lemma {:induction false} FlatPrefix(groups: seq<seq<Span>>, n: nat)
    requires n <= |groups|
    ensures Flat(groups[..n]) <= Flat(groups)
    decreases |groups|
  {
    if n == |groups| {
      assert groups[..n] == groups;
    } else {
      var front := groups[..|groups| - 1];
      assert front[..n] == groups[..n];
      FlatPrefix(front, n);
    }
  }

  method BrakeUnits(text: string, matches: seq<Span>, taken: set<string>) returns (sentences: seq<string>)
    requires AllInText(text, matches)
    ensures sentences == Quoted(text, matches, taken)
  {
    sentences := [];
    for i := 0 to |matches|
      invariant sentences == Quoted(text, matches[..i], taken)
    {
      assert matches[..i + 1][..i] == matches[..i];
      var s := SentenceContaining(text, matches[i]);
      if s != "" && s !in sentences && s !in taken {
        sentences := sentences + [s];
      }
    }
    assert matches[..|matches|] == matches;
  }

  function SetOf(s: seq<string>): set<string> {
    set x | x in s
  }

  method Extract(text: string, patterns: seq<seq<Span>>, brakes: seq<Span>) returns (rules: seq<string>, timings: seq<string>)
    requires AllInText(text, Flat(patterns)) && AllInText(text, brakes)
    ensures rules == Quoted(text, Flat(patterns), {}) && timings == Quoted(text, brakes, SetOf(rules))
  {
    rules := DisciplineUnits(text, patterns);
    timings := BrakeUnits(text, brakes, SetOf(rules));
  }

  predicate Distinct(s: seq<string>) {
    forall i, j | 0 <= i < j < |s| :: s[i] != s[j]
  }

  lemma {:induction false} QuotedOnce(text: string, spans: seq<Span>, taken: set<string>)
    requires AllInText(text, spans)
    ensures Distinct(Quoted(text, spans, taken))
    ensures forall s | s in Quoted(text, spans, taken) :: s != "" && s !in taken && Contains(text, s)
    ensures forall m | m in spans :: InText(text, m) &&
              (Sentence(text, m) == "" || Sentence(text, m) in taken || Sentence(text, m) in Quoted(text, spans, taken))
  {
    if spans != [] {
      var front, m := spans[..|spans| - 1], spans[|spans| - 1];
      QuotedOnce(text, front, taken);
      SentenceCoversMatch(text, m);
      assert spans == front + [m];
    }
  }

  /** The first match that a sentence is quoted for. */
  predicate IsFirst(text: string, spans: seq<Span>, m: nat, s: string)
    requires AllInText(text, spans)
  {
    m < |spans| && Sentence(text, spans[m]) == s && forall l | 0 <= l < m :: Sentence(text, spans[l]) != s
  }

  lemma {:induction false} QuotedIsMatched(text: string, spans: seq<Span>, taken: set<string>, s: string) returns (l: nat)
    requires AllInText(text, spans) && s in Quoted(text, spans, taken)
    ensures l < |spans| && Sentence(text, spans[l]) == s
  {
    var front := spans[..|spans| - 1];
    if s in Quoted(text, front, taken) {
      l := QuotedIsMatched(text, front, taken, s);
    } else {
      l := |spans| - 1;
    }
  }

  lemma FirstIsBefore(text: string, spans: seq<Span>, n: nat, taken: set<string>, s: string, m: nat)
    requires AllInText(text, spans) && n <= |spans| && s in Quoted(text, spans[..n], taken) && IsFirst(text, spans, m, s)
    ensures m < n && IsFirst(text, spans[..n], m, s)
  {
    var l := QuotedIsMatched(text, spans[..n], taken, s);
    assert spans[l] == spans[..n][l];
  }

  /** A sentence that is quoted for the last match had no match before. */
  lemma NewIsLast(text: string, spans: seq<Span>, taken: set<string>, s: string, n: nat)
    requires AllInText(text, spans) && spans != [] && IsFirst(text, spans, n, s)
    requires s != "" && s !in taken && s !in Quoted(text, spans[..|spans| - 1], taken)
    ensures n == |spans| - 1
  {
    var front := spans[..|spans| - 1];
    QuotedOnce(text, front, taken);
    assert forall l | 0 <= l < |front| :: front[l] in front && front[l] == spans[l];
  }

  /** Sentences come in the order of their first matches. */
  lemma {:induction false} QuotedInOrder(text: string, spans: seq<Span>, taken: set<string>, i: nat, j: nat, m: nat, n: nat)
    requires AllInText(text, spans) && i < j < |Quoted(text, spans, taken)|
    requires IsFirst(text, spans, m, Quoted(text, spans, taken)[i]) && IsFirst(text, spans, n, Quoted(text, spans, taken)[j])
    ensures m < n
  {
    var last := |spans| - 1;
    var front := spans[..last];
    var rest, all := Quoted(text, front, taken), Quoted(text, spans, taken);
    FirstIsBefore(text, spans, last, taken, all[i], m);
    if j < |rest| {
      FirstIsBefore(text, spans, last, taken, all[j], n);
      QuotedInOrder(text, front, taken, i, j, m, n);
    } else {
      NewIsLast(text, spans, taken, all[j], n);
    }
  }

  /** Over both families: no sentence is quoted twice, every one is a contiguous
      piece of the text, and every match is quoted by its sentence. */
  lemma NoSentenceTwice(text: string, spans: seq<Span>, brakes: seq<Span>)
    requires AllInText(text, spans) && AllInText(text, brakes)
    ensures
      var rules := Quoted(text, spans, {});
      var timings := Quoted(text, brakes, SetOf(rules));
      && Distinct(rules + timings)
      && (forall s | s in rules + timings :: s != "" && Contains(text, s))
      && (forall m | m in spans :: InText(text, m) && (Sentence(text, m) != "" ==> Sentence(text, m) in rules))
      && (forall m | m in brakes :: InText(text, m) && (Sentence(text, m) != "" ==> Sentence(text, m) in rules + timings))
  {
    var rules := Quoted(text, spans, {});
    var timings := Quoted(text, brakes, SetOf(rules));
    QuotedOnce(text, spans, {});
    QuotedOnce(text, brakes, SetOf(rules));
    forall i, j | 0 <= i < j < |rules + timings| ensures (rules + timings)[i] != (rules + timings)[j] {
      if i < |rules| <= j {
        assert timings[j - |rules|] in timings && rules[i] in SetOf(rules);
      }
    }
  }
}
