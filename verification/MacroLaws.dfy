/** What an update of the macro index leaves in the file, said of the rows, the
    rules and the entries before and after. */
module MacroLaws {
  import opened Text
  import opened MacroIndex

  // ---- which rows belong in the index ---------------------------------

  /** A daily column, unless the row is kept by hand. */
  predicate Daily(row: Row, rules: Rules) {
    row.id !in rules.kept && row.column in rules.dailyColumns
  }

  predicate Occurs(term: string, row: Row, rules: Rules) {
    Contains(rules.clean(row.title), term) || Contains(row.title, term)
  }

  /** A scanned column, no report, not about many companies, and a macro term. */
  predicate ByRule(row: Row, rules: Rules) {
    && row.id !in rules.kept && row.column !in rules.dailyColumns && row.column in rules.scannable
    && (forall i | 0 <= i < |rules.reportTerms| :: !Contains(row.title, rules.reportTerms[i]))
    && (row.companies.None? || row.companies.value < rules.companyMin)
    && exists i | 0 <= i < |rules.macroTerms| :: Occurs(rules.macroTerms[i], row, rules)
  }

  predicate Belongs(row: Row, rules: Rules) {
    row.id in rules.kept || Daily(row, rules) || ByRule(row, rules)
  }

  function SourceOf(row: Row, rules: Rules): Source {
    if row.id in rules.kept then ManualKeep else if row.column in rules.dailyColumns then DailyHot else Rule
  }

  function ReasonOf(row: Row, rules: Rules): Option<string> {
    if row.id in rules.kept then rules.kept[row.id] else if row.column in rules.dailyColumns then Some("每日热点并入") else None
  }

  /** The terms of an entry: for a rule, those that occur, in the rules' order. */
  predicate TermsFit(terms: seq<string>, row: Row, rules: Rules) {
    if row.id in rules.kept then terms == []
    else if row.column in rules.dailyColumns then terms == ["ai_summary_reference"]
    else Picked(terms, rules.macroTerms, row, rules)
  }

  predicate Picked(terms: seq<string>, from: seq<string>, row: Row, rules: Rules) {
    if from == [] then terms == []
    else
      var last := from[|from| - 1];
      if Occurs(last, row, rules) then terms != [] && terms[|terms| - 1] == last && Picked(terms[..|terms| - 1], from[..|from| - 1], row, rules)
      else Picked(terms, from[..|from| - 1], row, rules)
  }

  lemma {:induction false} MatchedArePicked(from: seq<string>, row: Row, rules: Rules)
    ensures Picked(Matched(from, rules.clean(row.title), row.title), from, row, rules)
    ensures Matched(from, rules.clean(row.title), row.title) != [] <==> exists i | 0 <= i < |from| :: Occurs(from[i], row, rules)
  {
    if from != [] {
      var front, last := from[..|from| - 1], from[|from| - 1];
      var rest := Matched(front, rules.clean(row.title), row.title);
      MatchedArePicked(front, row, rules);
      assert (rest + [last])[..|rest|] == rest;
      if i :| 0 <= i < |from| && Occurs(from[i], row, rules) {
        assert i < |from| - 1 ==> front[i] == from[i];
      }
      if i :| 0 <= i < |front| && Occurs(front[i], row, rules) {
        assert from[i] == front[i];
      }
    }
  }

  lemma RowsThatBelong(row: Row, rules: Rules)
    ensures Classify(row, rules).Some? <==> row.id != "" && Belongs(row, rules)
    ensures
      var v := Classify(row, rules);
      v.Some? ==> v.value.source == SourceOf(row, rules) && v.value.reason == ReasonOf(row, rules) && TermsFit(v.value.terms, row, rules)
  {
    MatchedArePicked(rules.macroTerms, row, rules);
  }

  /** An entry made from its row. */
  predicate MadeFrom(e: Entry, row: Row, x: Inputs) {
    && e.title == (if |row.title| <= 160 then row.title else row.title[..160])
    && e.date == (if |row.date| <= 10 then row.date else row.date[..10])
    && e.column == row.column && e.score == row.score
    && e.companyCount == (if row.companies.Some? then row.companies.value else 0)
    && e.source == SourceOf(row, x.rules) && e.reason == ReasonOf(row, x.rules) && TermsFit(e.terms, row, x.rules)
    && e.version == x.rules.version && e.taggedAt == x.stamp
  }

  lemma EntriesAreMade(row: Row, x: Inputs)
    requires row.id != "" && Belongs(row, x.rules)
    ensures Classify(row, x.rules).Some? && MadeFrom(EntryFrom(row, Classify(row, x.rules).value, x.rules.version, x.stamp), row, x)
  {
    RowsThatBelong(row, x.rules);
  }

  // ---- the baseline ---------------------------------------------------

  /** A row that the baseline takes: kept by hand, or of a daily column. */
  predicate InBaseline(id: string, x: Inputs) {
    id in x.index && id !in x.rules.excluded && (id in x.rules.kept || x.index[id].column in x.rules.dailyColumns)
  }

  lemma OneIdOfALoop(m: Entries, ids: set<string>, f: Act, id: string)
    ensures Get(Phase(m, ids, f), id) == if id in ids then After(f(id, Get(m, id))) else Get(m, id)
  {
  }

  lemma OneIdReviewed(file: Option<Payload>, x: Inputs, id: string)
    ensures Get(Reviewed(file, x), id) == After(Review(id, Get(Before(file), id), x.rules, x.stamp))
  {
    OneIdOfALoop(Before(file), Before(file).Keys, Reviewing(x.rules, x.stamp), id);
  }

  lemma OneIdSeeded(file: Option<Payload>, x: Inputs, id: string)
    ensures
      var e := Get(Reviewed(file, x), id);
      Get(Seeded(file, x), id) == if Seeds(file) then After(Seed(id, e, x.index, x.rules, x.stamp)) else e
  {
    OneIdOfALoop(Reviewed(file, x), SeedIds(file, x), Seeding(x.index, x.rules, x.stamp), id);
  }

  lemma OneId(file: Option<Payload>, x: Inputs, id: string)
    ensures
      var e0 := Get(Before(file), id);
      var e1 := After(Review(id, e0, x.rules, x.stamp));
      var e2 := if Seeds(file) then After(Seed(id, e1, x.index, x.rules, x.stamp)) else e1;
      var e3 := if id in x.requested then After(Request(id, e2, x.index, x.rules, x.stamp)) else e2;
      Get(Before(FileAfter(file, x)), id) == e3
  {
    FileHoldsTheMerge(file, x);
    OneIdReviewed(file, x, id);
    OneIdSeeded(file, x, id);
    OneIdOfALoop(Seeded(file, x), x.requested, Requesting(x.index, x.rules, x.stamp), id);
  }

  /** An update of a file without a baseline enters every row of the index that is
      kept or of a daily column and not excluded, made from the row when it was
      not there, and stamps the baseline, once.  With or without one, nothing else
      is new unless it was requested, and a changed file carries the time and the
      rules version. */
  lemma BaselineIsEntered(file: Option<Payload>, x: Inputs, id: string)
    requires GoodIndex(x.index)
    ensures
      var after := FileAfter(file, x);
      && (Seeds(file) && InBaseline(id, x) ==> id in Before(after))
      && (Seeds(file) && InBaseline(id, x) && id !in Before(file) ==> MadeFrom(Before(after)[id], x.index[id], x))
      && (id in Before(after) && id !in Before(file) ==> id in x.requested || (Seeds(file) && InBaseline(id, x)))
      && (Seeds(file) ==> after.Some? && after.value.baselineAt == Some(x.stamp))
      && (!Seeds(file) ==> after.Some? && after.value.baselineAt == file.value.baselineAt)
      && (after != file ==> after.Some? && after.value.version == x.rules.version && after.value.updatedAt == x.stamp)
  {
    OneId(file, x, id);
    if id in x.index {
      RowsThatBelong(x.index[id], x.rules);
      if Belongs(x.index[id], x.rules) {
        EntriesAreMade(x.index[id], x);
      }
    }
  }

  // ---- requested rows -------------------------------------------------

  /** A requested row of the index has an entry afterwards exactly when it belongs
      there and is not excluded, and then one that says so; it is made from the row
      unless an entry with the same verdict was there. */
  lemma RequestedRowsAreJudged(file: Option<Payload>, x: Inputs, id: string)
    requires GoodIndex(x.index) && id in x.requested && id in x.index
    ensures
      var row, after := x.index[id], Before(FileAfter(file, x));
      && (id in after <==> id !in x.rules.excluded && Belongs(row, x.rules))
      && (id in after ==>
            && after[id].source == SourceOf(row, x.rules) && TermsFit(after[id].terms, row, x.rules)
            && after[id].version == x.rules.version)
      && (id in after && id !in Before(file) ==> MadeFrom(after[id], row, x))
  {
    OneId(file, x, id);
    MergedIsSound(file, x, id);
    RowsThatBelong(x.index[id], x.rules);
    if Belongs(x.index[id], x.rules) {
      EntriesAreMade(x.index[id], x);
    }
    FileHoldsTheMerge(file, x);
  }

  lemma {:induction false} PickedOnce(terms: seq<string>, other: seq<string>, from: seq<string>, row: Row, rules: Rules)
    requires Picked(terms, from, row, rules) && Picked(other, from, row, rules)
    ensures terms == other
  {
    if from != [] {
      var front := from[..|from| - 1];
      if Occurs(from[|from| - 1], row, rules) {
        PickedOnce(terms[..|terms| - 1], other[..|other| - 1], front, row, rules);
        assert terms == terms[..|terms| - 1] + [from[|from| - 1]] && other == other[..|other| - 1] + [from[|from| - 1]];
      } else {
        PickedOnce(terms, other, front, row, rules);
      }
    }
  }

  /** An entry that says what its row is judged as, under the current rules. */
  predicate UpToDate(e: Entry, row: Row, rules: Rules) {
    e.source == SourceOf(row, rules) && TermsFit(e.terms, row, rules) && e.version == rules.version
  }

  /** What a request makes of an entry that a review under the same rules leaves
      alone: nothing if it is up to date, and otherwise it is made anew, or removed
      when its row does not belong. */
  predicate Requested(id: string, was: Entry, x: Inputs, effect: Effect)
    requires id in x.index
  {
    var row := x.index[id];
    if !Belongs(row, x.rules) then effect == Removed
    else if UpToDate(was, row, x.rules) then effect == Already(Some(was))
    else effect.Updated? && effect.entry.Some? && MadeFrom(effect.entry.value, row, x)
  }

  lemma RequestReplaces(id: string, was: Entry, x: Inputs)
    requires GoodIndex(x.index) && id in x.index && id !in x.rules.excluded && (was.source.ManualKeep? ==> id in x.rules.kept)
    ensures Requested(id, was, x, Request(id, Some(was), x.index, x.rules, x.stamp))
  {
    var row := x.index[id];
    RowsThatBelong(row, x.rules);
    if Belongs(row, x.rules) {
      EntriesAreMade(row, x);
      var v := Classify(row, x.rules).value;
      if UpToDate(was, row, x.rules) && row.id !in x.rules.kept && row.column !in x.rules.dailyColumns {
        PickedOnce(was.terms, v.terms, x.rules.macroTerms, row, x.rules);
      }
    }
  }

  /** An entry that a review under the current rules leaves alone. */
  predicate Reviewable(id: string, e: Entry, rules: Rules) {
    id !in rules.excluded && e.version == rules.version && (e.source.ManualKeep? ==> id in rules.kept)
  }

  /** A requested entry of the current rules stays as it is when it is up to date,
      and is otherwise made anew from its row. */
  lemma RequestedEntriesAreReplaced(file: Option<Payload>, x: Inputs, id: string)
    requires GoodIndex(x.index) && id in x.requested && id in x.index && Belongs(x.index[id], x.rules)
    requires id in Before(file) && Reviewable(id, Before(file)[id], x.rules)
    ensures
      var was, after := Before(file)[id], Before(FileAfter(file, x));
      && id in after
      && if UpToDate(was, x.index[id], x.rules) then after[id] == was else MadeFrom(after[id], x.index[id], x)
  {
    OneId(file, x, id);
    RequestReplaces(id, Before(file)[id], x);
  }

  // ---- what the report counts -----------------------------------------

  lemma CountOfOne(m: Entries, f: Act, id: string, kind: Effect -> bool)
    ensures Count(m, {id}, f, kind) == if kind(f(id, Get(m, id))) then 1 else 0
  {
    assert Where(m, {id}, f, kind) == if kind(f(id, Get(m, id))) then {id} else {};
  }

  lemma OneRequestTally(m: Entries, x: Inputs, id: string)
    requires forall k | k in m :: Reviewable(k, m[k], x.rules)
    ensures
      var f := Requesting(x.index, x.rules, x.stamp);
      var reviewed := Plus(ZERO, m, m.Keys, Reviewing(x.rules, x.stamp));
      reviewed == ZERO && Phase(m, m.Keys, Reviewing(x.rules, x.stamp)) == m
      && Plus(ZERO, m, {id}, f) == Bump(ZERO, f(id, Get(m, id)))
  {
    var f := Requesting(x.index, x.rules, x.stamp);
    var g := Reviewing(x.rules, x.stamp);
    forall k | k in m.Keys ensures g(k, Get(m, k)) == Same(Some(m[k])) {
      assert Reviewable(k, m[k], x.rules);
    }
    QuietKinds(m, m.Keys, g);
    NoneWhere(m, m.Keys, g, IsAlready);
    SameMaps(Phase(m, m.Keys, g), m);
    CountOfOne(m, f, id, IsTagged);
    CountOfOne(m, f, id, IsUpdated);
    CountOfOne(m, f, id, IsAlready);
    CountOfOne(m, f, id, IsRemoved);
    CountOfOne(m, f, id, IsChange);
  }

  lemma OneRequestIsAll(file: Option<Payload>, x: Inputs, id: string)
    requires !Seeds(file) && x.requested == {id} && forall k | k in Before(file) :: Reviewable(k, Before(file)[k], x.rules)
    ensures TallyOf(file, x) == Bump(ZERO, Request(id, Get(Before(file), id), x.index, x.rules, x.stamp))
  {
    OneRequestTally(Before(file), x, id);
    LoopStart(ZERO, Before(file), Seeding(x.index, x.rules, x.stamp), {});
  }

  /** One thing is counted, as what was done for the row. */
  predicate CountedAs(t: Tally, e: Option<Entry>, row: Row, rules: Rules) {
    var belongs, current := Belongs(row, rules), e.Some? && UpToDate(e.value, row, rules);
    && t.tagged == (if belongs && e.None? then 1 else 0)
    && t.already == (if belongs && current then 1 else 0)
    && t.updated == (if belongs && e.Some? && !current then 1 else 0)
    && t.removed == (if !belongs && e.Some? then 1 else 0)
  }

  lemma NewRowIsCounted(id: string, x: Inputs)
    requires GoodIndex(x.index) && id in x.index && id !in x.rules.excluded
    ensures CountedAs(Bump(ZERO, Request(id, None, x.index, x.rules, x.stamp)), None, x.index[id], x.rules)
  {
    RowsThatBelong(x.index[id], x.rules);
  }

  lemma EntryIsCounted(id: string, was: Entry, x: Inputs, effect: Effect)
    requires id in x.index && Requested(id, was, x, effect)
    ensures CountedAs(Bump(ZERO, effect), Some(was), x.index[id], x.rules)
  {
  }

  /** One requested row of the index, in a file that is otherwise up to date: it is
      counted once, as what was done with it. */
  lemma OneRequestIsCounted(file: Option<Payload>, x: Inputs, id: string)
    requires GoodIndex(x.index) && !Seeds(file) && x.requested == {id} && id in x.index && id !in x.rules.excluded
    requires forall k | k in Before(file) :: Reviewable(k, Before(file)[k], x.rules)
    ensures CountedAs(TallyOf(file, x), Get(Before(file), id), x.index[id], x.rules)
  {
    OneRequestIsAll(file, x, id);
    var e := Get(Before(file), id);
    if e.None? {
      NewRowIsCounted(id, x);
    } else {
      RequestReplaces(id, e.value, x);
      EntryIsCounted(id, e.value, x, Request(id, e, x.index, x.rules, x.stamp));
    }
  }

  // ---- entries that are there already ---------------------------------

  /** What an entry remembers of its row. */
  function Remains(id: string, e: Entry): Row {
    Row(id, e.title, e.column, Some(e.companyCount), "", "")
  }

  /** An entry in a file with a baseline that is not requested.  An excluded one
      goes.  One entered by hand stays as long as it is kept; another stays as it
      is under the same rules, and under others if what it remembers belongs. */
  lemma OtherEntriesAreReviewed(file: Option<Payload>, x: Inputs, id: string)
    requires !Seeds(file) && id in Before(file) && id !in x.requested && id != ""
    ensures
      var was, after := Before(file)[id], Before(FileAfter(file, x));
      var row := Remains(id, was);
      && (id in after <==>
            && id !in x.rules.excluded
            && (if was.source.ManualKeep? then id in x.rules.kept else was.version == x.rules.version || Belongs(row, x.rules)))
      && (id in after && was.version == x.rules.version ==> after[id] == was)
      && (id in after && was.version != x.rules.version ==>
            && after[id].(source := was.source, reason := was.reason, terms := was.terms) == was.(version := x.rules.version, taggedAt := x.stamp)
            && (if was.source.ManualKeep? then after[id] == was.(version := x.rules.version, taggedAt := x.stamp)
                else after[id].source == SourceOf(row, x.rules) && after[id].reason == ReasonOf(row, x.rules)
                     && TermsFit(after[id].terms, row, x.rules)))
  {
    OneId(file, x, id);
    RowsThatBelong(Remains(id, Before(file)[id]), x.rules);
  }
}
