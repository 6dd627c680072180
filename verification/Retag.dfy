/** What requests and passes of the reconciler do to the tags in force, said of
    the tags before and after. */
module Retags {
  import opened Text
  import opened TagRows
  import opened TagStores

  // ---- one request ----------------------------------------------------

  /** The answer to a request.  It is invalid when a text is missing, when it names
      no rule and is not by hand, or when a tag by hand is too long or the eleventh
      of its article.  A tag that is there is skipped, unless both are of rules and
      the one there is to be replaced. */
  lemma RequestsAreAnswered(tags: Tags, q: Request)
    ensures
      var k := (Strip(q.article), Strip(q.tag));
      var manual := set j | j in tags && j.0 == k.0 && tags[j].dim == Manual :: j.1;
      var valid := k.0 != "" && k.1 != ""
                   && ((q.dim == Content && q.ruleId != "") || (q.dim == Manual && |k.1| <= 24 && (k.1 in manual || |manual| < 10)));
      TagStatus(tags, q) ==
        if !valid then Status.Invalid
        else if k !in tags || (q.dim == Content && tags[k].dim == Content && tags[k].ruleId in q.supersede) then Added
        else SkippedPresent
  {
    var article := Strip(q.article);
    assert ManualTagsOf(tags, article) == set k | k in tags && k.0 == article && tags[k].dim == Manual :: k.1;
  }

  // ---- one key over a pass --------------------------------------------

  /** The row of the current rules for an article and a tag. */
  function RuleRow(article: string, tag: string, table: RuleTable, now: string): TagRow {
    TagRow(Strip(article), Strip(tag), Content, "auto", table.ruleId, now, Add, table.fallback)
  }

  function CountOf(rows: seq<TagRow>, k: Key): nat {
    if rows == [] then 0 else CountOf(rows[..|rows| - 1], k) + if KeyOf(rows[|rows| - 1]) == k then 1 else 0
  }

  lemma CountMore(rows: seq<TagRow>, row: TagRow, k: Key)
    ensures CountOf(rows + [row], k) == CountOf(rows, k) + if KeyOf(row) == k then 1 else 0
  {
    assert (rows + [row])[..|rows|] == rows;
  }

  /** A tag by hand, or of the current rules already. */
  predicate Stands(tags: Tags, k: Key, table: RuleTable) {
    k in tags && (tags[k].dim != Content || tags[k].ruleId == table.ruleId)
  }

  /** The key is as at the start, or holds its row, which was written once. */
  predicate KeptOrWritten(start: Tags, pass: Pass, row: TagRow, table: RuleTable) {
    var k := KeyOf(row);
    || (SameAt(pass.tags, start, k) && CountOf(pass.rows, k) == 0)
    || (k in pass.tags && pass.tags[k] == row && CountOf(pass.rows, k) == 1 && !Stands(start, k, table))
  }

  lemma OneVisit(start: Tags, pass: Pass, index: Index, table: RuleTable, target: string, now: string, article: string, tag: string)
    requires Plain(RuleRow(article, tag, table, now)) && KeptOrWritten(start, pass, RuleRow(article, tag, table, now), table)
    ensures KeptOrWritten(start, Visit(start, pass, index, table, target, now), RuleRow(article, tag, table, now), table)
  {
    var row := RuleRow(article, tag, table, now);
    if Matched(index, target) {
      var q := RequestFor(start, target, index[target].rule.value, table, now);
      CountMore(pass.rows, RowOf(q), KeyOf(row));
      assert KeyOf(RowOf(q)) == KeyOf(row) ==> RowOf(q) == row;
    }
  }

  lemma OwnVisit(start: Tags, pass: Pass, index: Index, table: RuleTable, article: string, tag: string, now: string)
    requires article in index && index[article].readable && index[article].rule == Some(tag)
    requires Strip(article) != "" && Strip(tag) != "" && table.ruleId != ""
    requires Plain(RuleRow(article, tag, table, now)) && KeptOrWritten(start, pass, RuleRow(article, tag, table, now), table)
    ensures
      var after := Visit(start, pass, index, table, article, now);
      var row := RuleRow(article, tag, table, now);
      KeyOf(row) in after.tags && (KeyOf(row) !in start || (Trimmed(article) && !Stands(start, KeyOf(row), table)) ==> after.tags[KeyOf(row)] == row)
  {
    var row := RuleRow(article, tag, table, now);
    var q := RequestFor(start, article, tag, table, now);
    assert RowOf(q) == row;
    if KeyOf(row) in start && Trimmed(article) && !Stands(start, KeyOf(row), table) {
      StripOfTrimmed(article);
      assert start[KeyOf(row)].ruleId in SupersedeIds(start, article, table);
    }
  }

  lemma {:induction false} PassOnAKey(start: Tags, index: Index, table: RuleTable, targets: seq<string>, now: string, article: string, tag: string)
    requires Plain(RuleRow(article, tag, table, now))
    ensures KeptOrWritten(start, VisitAll(start, index, table, targets, now), RuleRow(article, tag, table, now), table)
  {
    if targets != [] {
      PassOnAKey(start, index, table, targets[..|targets| - 1], now, article, tag);
      OneVisit(start, VisitAll(start, index, table, targets[..|targets| - 1], now), index, table, targets[|targets| - 1], now, article, tag);
    }
  }

  /** What a pass does for a target with a rule tag: the tag is in force after it.
      A tag by hand or of the current rules stands, and any other, or none, is
      replaced by the row of the current rules, written once. */
  predicate Retagged(start: Tags, pass: Pass, article: string, tag: string, table: RuleTable, now: string) {
    var row := RuleRow(article, tag, table, now);
    var k := (Strip(article), Strip(tag));
    && k in pass.tags
    && (k in start && (start[k].dim != Content || start[k].ruleId == table.ruleId) ==>
          pass.tags[k] == start[k] && CountOf(pass.rows, k) == 0)
    && (k !in start || (Trimmed(article) && start[k].dim == Content && start[k].ruleId != table.ruleId) ==>
          pass.tags[k] == row && CountOf(pass.rows, k) == 1)
  }

  lemma {:induction false} VisitedTargetIsRetagged(start: Tags, index: Index, table: RuleTable, targets: seq<string>, now: string, article: string, tag: string)
    requires article in targets && article in index && index[article].readable && index[article].rule == Some(tag)
    requires Strip(article) != "" && Strip(tag) != "" && table.ruleId != "" && Plain(RuleRow(article, tag, table, now))
    ensures Retagged(start, VisitAll(start, index, table, targets, now), article, tag, table, now)
  {
    var n := |targets| - 1;
    var row := RuleRow(article, tag, table, now);
    var before, after := VisitAll(start, index, table, targets[..n], now), VisitAll(start, index, table, targets, now);
    PassOnAKey(start, index, table, targets[..n], now, article, tag);
    PassOnAKey(start, index, table, targets, now, article, tag);
    if targets[n] == article {
      OwnVisit(start, before, index, table, article, tag, now);
    } else {
      VisitedTargetIsRetagged(start, index, table, targets[..n], now, article, tag);
      OneVisit(start, before, index, table, targets[n], now, article, tag);
      VisitOnWritten(start, before, index, table, targets[n], now, row);
    }
  }

  lemma VisitOnWritten(start: Tags, pass: Pass, index: Index, table: RuleTable, target: string, now: string, row: TagRow)
    requires KeyOf(row) in pass.tags && row.dim == Content && row.ruleId == table.ruleId
    ensures KeyOf(row) in Visit(start, pass, index, table, target, now).tags
    ensures pass.tags[KeyOf(row)] == row ==> Visit(start, pass, index, table, target, now).tags[KeyOf(row)] == row
  {
  }

  /** The index holds the last entry of each id, and none without an id. */
  lemma {:induction false} IndexHoldsTheLast(entries: seq<Entry>, i: nat)
    requires i < |entries| && entries[i].id != "" && forall j | i < j < |entries| :: entries[j].id != entries[i].id
    ensures entries[i].id in ById(entries) && ById(entries)[entries[i].id] == entries[i]
  {
    if i < |entries| - 1 {
      IndexHoldsTheLast(entries[..|entries| - 1], i);
    }
  }

  lemma {:induction false} IndexIsOfEntries(entries: seq<Entry>, id: string)
    requires id in ById(entries)
    ensures id != "" && ById(entries)[id].id == id && ById(entries)[id] in entries
  {
    var front, last := entries[..|entries| - 1], entries[|entries| - 1];
    if last.id != id || last.id == "" {
      IndexIsOfEntries(front, id);
      assert ById(front)[id] in front;
    }
  }

  /** The targets: in refresh mode the articles with a content tag of another rule
      or of the built-in rules, else those of the index without a content tag. */
  lemma TargetsAreStaleOrBare(tags: Tags, index: Index, table: RuleTable, refresh: bool, article: string)
    ensures IsTarget(tags, index, table, refresh, article) <==>
            if refresh then exists k | k in tags :: k.0 == article && tags[k].dim == Content && (tags[k].ruleId != table.ruleId || tags[k].fallback)
            else article in index && forall k | k in tags :: k.0 == article ==> tags[k].dim != Content
  {
  }

  /** A reconciliation without orphans.  Every article of the index without a
      content tag, or in refresh mode with one of another rule or of the built-in
      rules, is retagged as its rule says. */
  lemma ReconcileRetags(start: Tags, index: Index, table: RuleTable, refresh: bool, targets: seq<string>, now: string, article: string, tag: string)
    requires forall a :: a in targets <==> IsTarget(start, index, table, refresh, a)
    requires forall a | a in targets :: a in index
    requires article in index && index[article].readable && index[article].rule == Some(tag)
    requires Strip(article) != "" && Strip(tag) != "" && table.ruleId != "" && Plain(RuleRow(article, tag, table, now))
    requires
      if refresh then exists k | k in start :: k.0 == article && start[k].dim == Content && (start[k].ruleId != table.ruleId || start[k].fallback)
      else forall k | k in start :: k.0 == article ==> start[k].dim != Content
    ensures Retagged(start, VisitAll(start, index, table, Visited(index, targets), now), article, tag, table, now)
  {
    VisitedAreTargets(index, targets);
    TargetsAreStaleOrBare(start, index, table, refresh, article);
    VisitedTargetIsRetagged(start, index, table, targets, now, article, tag);
  }
}
