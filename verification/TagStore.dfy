/** The tag sidecar used by one process at a time: admission, tombstones,
    compaction, and the re-entrant reconciler on top. */
module TagStores {
  import opened Text
  import opened TagRows
  import Framing

  datatype Status = Added | SkippedPresent | SkippedAbsent | Invalid

  datatype Request = Request(
    article: string,
    tag: string,
    dim: Dim,
    source: string,
    ruleId: string,
    fallback: bool,
    supersede: set<string>,
    now: string)

  /** The row a request writes when it is admitted. */
  function RowOf(q: Request): TagRow {
    TagRow(Strip(q.article), Strip(q.tag), q.dim, q.source, q.ruleId, q.now, Add, q.fallback)
  }

  /** The plain map a user of the store has in mind: the tags in force. */
  type Tags = map<Key, TagRow>

  predicate Refused(tags: Tags, q: Request) {
    var article, tag := Strip(q.article), Strip(q.tag);
    || article == "" || tag == "" || q.dim.OtherDim?
    || (q.dim == Content && q.ruleId == "")
    || (q.dim == Manual && ManualRefused(tags, article, tag))
  }

  /** A content tag whose winning content row carries a rule id to be replaced. */
  predicate Supersedes(tags: Tags, q: Request) {
    var k := KeyOf(RowOf(q));
    q.dim == Content && k in tags && tags[k].dim == Content && tags[k].ruleId in q.supersede
  }

  function TagStatus(tags: Tags, q: Request): Status {
    if Refused(tags, q) then Invalid
    else if KeyOf(RowOf(q)) in tags && !Supersedes(tags, q) then SkippedPresent
    else Added
  }

  /** The tags in force after a request: an added row counts when it reads back. */
  function Tagged(tags: Tags, q: Request): Tags {
    if TagStatus(tags, q).Added? && Plain(RowOf(q)) then tags[KeyOf(RowOf(q)) := RowOf(q)] else tags
  }

  lemma AddedIsStorable(tags: Tags, q: Request)
    requires TagStatus(tags, q).Added?
    ensures Storable(RowOf(q))
  {
  }

  lemma InTagsOf(tags: Tags, article: string, tag: string)
    ensures tag in TagsOf(tags, article) <==> (article, tag) in tags
  {
    if (article, tag) in tags {
      assert (article, tag).1 == tag;
    }
  }

  method LastPerKey(rows: seq<TagRow>) returns (wins: map<Key, TagRow>)
    ensures wins == Wins(rows)
  {
    wins := map[];
    for i := 0 to |rows|
      invariant wins == Wins(rows[..i])
    {
      assert rows[..i + 1][..i] == rows[..i];
      wins := wins[KeyOf(rows[i]) := rows[i]];
    }
    assert rows[..|rows|] == rows;
  }

  /** What a compaction writes to its temporary file. */
  method Rewritten(d: Disk, rows: seq<TagRow>) returns (text: string)
    ensures text == Dump(d, rows)
  {
    text := "";
    for i := 0 to |rows|
      invariant text == Dump(d, rows[..i])
    {
      assert rows[..i + 1][..i] == rows[..i];
      text := text + d.line(rows[i]);
    }
    assert rows[..|rows|] == rows;
  }

  class TagStore {
    const codec: Codec
    const disk: Disk
    var text: string

    constructor (codec: Codec, text: string)
      requires Faithful(codec)
      ensures Valid() && this.text == text
    {
      this.codec, this.disk, this.text := codec, Sidecar(codec), text;
      SidecarIsLawful(codec);
    }

    ghost predicate Valid() {
      Lawful(disk) && Reads(disk, codec)
    }

    ghost function Rows(): seq<TagRow>
      reads this
    {
      disk.read(text)
    }

    ghost function Effective(): Tags
      reads this
    {
      Active(Rows())
    }

    method ReadRows() returns (rows: seq<TagRow>, torn: nat)
      requires Valid()
      ensures rows == Rows() && torn == TornLines(codec, Framing.SplitLines(text))
    {
      var lines := Framing.SplitLines(text);
      rows, torn := [], 0;
      for i := 0 to |lines|
        invariant rows == RowsOfLines(codec, lines[..i]) && torn == TornLines(codec, lines[..i])
      {
        assert lines[..i + 1][..i] == lines[..i];
        if Strip(lines[i]) == "" {
          continue;
        }
        match codec.dec(lines[i]) {
          case Some(row) => rows := rows + [row];
          case None => torn := torn + 1;
        }
      }
      assert lines[..|lines|] == lines;
    }

    method EffectiveWins() returns (wins: map<Key, TagRow>)
      requires Valid()
      ensures wins == Wins(Rows())
    {
      var rows, _ := ReadRows();
      wins := LastPerKey(rows);
    }

    method EffectiveTags(article: string) returns (tags: set<string>, manual: set<string>)
      requires Valid()
      ensures tags == TagsOf(Effective(), article) && manual == ManualTagsOf(Effective(), article)
    {
      var wins := EffectiveWins();
      var active := map k | k in wins && wins[k].action.Add? :: wins[k];
      tags, manual := TagsOf(active, article), ManualTagsOf(active, article);
    }

    /** The row that currently wins for a key, unless it is a tombstone. */
    method Winner(k: Key) returns (row: Option<TagRow>)
      requires Valid()
      ensures row == if k in Effective() then Some(Effective()[k]) else None
    {
      var wins := EffectiveWins();
      row := if k in wins && wins[k].action.Add? then Some(wins[k]) else None;
    }

    /** The admission checks, in the order of the source. */
    method Admission(q: Request) returns (status: Status)
      requires Valid()
      ensures status == TagStatus(Effective(), q)
    {
      var article, tag := Strip(q.article), Strip(q.tag);
      if article == "" || tag == "" || q.dim.OtherDim? {
        return Invalid;
      }
      var tags, manual := EffectiveTags(article);
      if q.dim == Manual {
        if |tag| > MANUAL_TAG_CHARS || (tag !in manual && |manual| >= MANUAL_TAG_MAX) {
          return Invalid;
        }
      } else if q.ruleId == "" {
        return Invalid;
      }
      InTagsOf(Effective(), article, tag);
      if tag in tags {
        var winner := Winner((article, tag));
        if !(q.dim == Content && winner.value.dim == Content && winner.value.ruleId in q.supersede) {
          return SkippedPresent;
        }
      }
      status := Added;
    }

    /** The line is appended whenever the answer is "added"; a file that had ended
        then holds one more row exactly when that row is plain. */
    method TagArticle(q: Request) returns (status: Status)
      requires Valid()
      modifies this
      ensures status == TagStatus(old(Effective()), q)
      ensures text == old(text) + (if status.Added? then disk.line(RowOf(q)) else "")
      ensures Framing.Ended(old(text)) ==> Framing.Ended(text) && Effective() == Tagged(old(Effective()), q)
    {
      status := Admission(q);
      if status.Added? {
        AddedIsStorable(Effective(), q);
        Append(RowOf(q));
      }
    }

    method RemoveTag(article: string, tag: string, source: string, now: string) returns (status: Status)
      requires Valid()
      modifies this
      ensures
        var k := (Strip(article), Strip(tag));
        status == if k.0 == "" || k.1 == "" then Invalid else if k in old(Effective()) then Added else SkippedAbsent
      ensures !status.Added? ==> text == old(text)
      ensures status.Added? ==>
                var k := (Strip(article), Strip(tag));
                && k in old(Effective())
                && var row := TagRow(k.0, k.1, old(Effective())[k].dim, source, "", now, Remove, false);
                   && text == old(text) + disk.line(row)
                   && (Framing.Ended(old(text)) ==>
                         && Framing.Ended(text)
                         && Effective() == if Plain(row) then old(Effective()) - {k} else old(Effective()))
    {
      var k := (Strip(article), Strip(tag));
      if k.0 == "" || k.1 == "" {
        return Invalid;
      }
      var winner := Winner(k);
      if winner.None? {
        return SkippedAbsent;
      }
      assert AllStorable(Rows());
      WinnerIsStorable(Rows(), k);
      Append(TagRow(k.0, k.1, winner.value.dim, source, "", now, Remove, false));
      status := Added;
    }

    method Append(row: TagRow)
      requires Valid() && Storable(row)
      modifies this
      ensures text == old(text) + disk.line(row)
      ensures Framing.Ended(old(text)) ==>
                && Framing.Ended(text) && Rows() == ReadAfter(old(Rows()), row)
                && Effective() == (if !Plain(row) then old(Effective())
                                   else if row.action.Add? then old(Effective())[KeyOf(row) := row]
                                   else old(Effective()) - {KeyOf(row)})
    {
      ActiveAppend(Rows(), row);
      text := text + disk.line(row);
    }

    /** Rewrites every row that was read, tombstones included, and drops the torn
        lines: the rows stay the same exactly when all of them are plain. */
    method Compact() returns (kept: nat, torn: nat)
      requires Valid()
      modifies this
      ensures text == Dump(disk, old(Rows())) && Framing.Ended(text)
      ensures Rows() == PlainRows(old(Rows())) && (Rows() == old(Rows()) <==> AllPlain(old(Rows())))
      ensures kept == |old(Rows())| && torn == TornLines(codec, Framing.SplitLines(old(text)))
    {
      var rows;
      rows, torn := ReadRows();
      DumpReads(disk, rows);
      PlainRowsKeepPlain(rows);
      text := Rewritten(disk, rows);
      kept := |rows|;
    }
  }

  // ---- rows that do not read back -------------------------------------

  /** The file after the line of one row was appended some times. */
  function Repeated(d: Disk, text: string, row: TagRow, n: nat): string {
    if n == 0 then text else Repeated(d, text, row, n - 1) + d.line(row)
  }

  lemma {:induction false} RepeatedIsNotRead(d: Disk, text: string, row: TagRow, n: nat)
    requires Lawful(d) && Framing.Ended(text) && Storable(row) && !Plain(row)
    ensures Framing.Ended(Repeated(d, text, row, n)) && d.read(Repeated(d, text, row, n)) == d.read(text)
  {
    if n > 0 {
      RepeatedIsNotRead(d, text, row, n - 1);
    }
  }

  /** The second of two equal requests is skipped exactly when the row of the
      first reads back. */
  lemma SecondAddIsSkippedWhenPlain(tags: Tags, q: Request)
    requires TagStatus(tags, q).Added? && (q.dim == Content ==> q.ruleId !in q.supersede)
    ensures TagStatus(Tagged(tags, q), q) == if Plain(RowOf(q)) then SkippedPresent else Added
  {
    if Plain(RowOf(q)) && q.dim == Manual {
      var article, tag := Strip(q.article), Strip(q.tag);
      assert (article, tag) in Tagged(tags, q) && (article, tag).1 == tag;
      assert tag in ManualTagsOf(Tagged(tags, q), article);
    }
  }

  /** Otherwise the request is answered "added" however often it is made, the row
      is never in force, and a compaction removes its last trace. */
  lemma UnplainAddIsLost(d: Disk, text: string, q: Request, n: nat)
    requires Lawful(d) && Framing.Ended(text)
    requires TagStatus(Active(d.read(text)), q).Added? && !Plain(RowOf(q))
    ensures
      var after := Repeated(d, text, RowOf(q), n);
      && TagStatus(Active(d.read(after)), q).Added?
      && Active(d.read(after)) == Active(d.read(text))
      && Dump(d, d.read(after)) == Dump(d, d.read(text))
      && RowOf(q) !in d.read(Dump(d, d.read(after)))
  {
    AddedIsStorable(Active(d.read(text)), q);
    RepeatedIsNotRead(d, text, RowOf(q), n);
    assert AllStorable(d.read(text));
    DumpReads(d, d.read(text));
    PlainRowsKeepPlain(d.read(text));
  }

  function SeparatorRequest(): Request {
    Request("a", "x\U{2028}y", Manual, "manual", "", false, {}, "")
  }

  lemma SeparatorRequestIsAdmitted()
    ensures TagStatus(map[], SeparatorRequest()).Added? && !Plain(RowOf(SeparatorRequest()))
  {
    var q := SeparatorRequest();
    StripOfTrimmed(q.article);
    StripOfTrimmed(q.tag);
    assert ManualTagsOf(map[], q.article) == {};
    assert IsSeparator(q.tag[1]);
  }

  /** The tag "x\u2028y" on an article of an empty sidecar. */
  lemma SeparatorTagIsLost(c: Codec, n: nat)
    requires Faithful(c)
    ensures
      var d := Sidecar(c);
      var after := Repeated(d, "", RowOf(SeparatorRequest()), n);
      && TagStatus(Active(d.read(after)), SeparatorRequest()).Added?
      && d.read(after) == [] && Dump(d, d.read(after)) == ""
  {
    SidecarIsLawful(c);
    SeparatorRequestIsAdmitted();
    EmptyFileLoses(Sidecar(c), SeparatorRequest(), n);
  }

  lemma EmptyFileLoses(d: Disk, q: Request, n: nat)
    requires Lawful(d) && TagStatus(map[], q).Added? && !Plain(RowOf(q))
    ensures
      var after := Repeated(d, "", RowOf(q), n);
      && TagStatus(Active(d.read(after)), q).Added?
      && d.read(after) == [] && Dump(d, d.read(after)) == ""
  {
    assert Active([]) == map[];
    AddedIsStorable(map[], q);
    RepeatedIsNotRead(d, "", RowOf(q), n);
  }

  // ---- the reconciler -------------------------------------------------

  /** An index row as the reconciler sees it: whether its file and signals are
      there, and the tag of the first matching rule. */
  datatype Entry = Entry(id: string, readable: bool, rule: Option<string>)

  datatype RuleTable = RuleTable(ruleId: string, fallback: bool)

  type Index = map<string, Entry>

  /** Later entries win; entries without an id are ignored. */
  function ById(entries: seq<Entry>): Index {
    if entries == [] then map[]
    else
      var last := entries[|entries| - 1];
      var front := ById(entries[..|entries| - 1]);
      if last.id == "" then front else front[last.id := last]
  }

  predicate HasContent(tags: Tags, article: string) {
    exists k | k in tags :: k.0 == article && tags[k].dim == Content
  }

  predicate Stale(row: TagRow, table: RuleTable) {
    row.ruleId != table.ruleId || row.fallback
  }

  predicate HasStaleContent(tags: Tags, article: string, table: RuleTable) {
    exists k | k in tags :: k.0 == article && tags[k].dim == Content && Stale(tags[k], table)
  }

  predicate IsTarget(tags: Tags, index: Index, table: RuleTable, refresh: bool, article: string) {
    if refresh then HasStaleContent(tags, article, table)
    else article in index && !HasContent(tags, article)
  }

  function SupersedeIds(tags: Tags, article: string, table: RuleTable): set<string> {
    set k | k in tags && k.0 == article && tags[k].dim == Content && tags[k].ruleId != table.ruleId :: tags[k].ruleId
  }

  function RequestFor(start: Tags, article: string, tag: string, table: RuleTable, now: string): Request {
    Request(article, tag, Content, "auto", table.ruleId, table.fallback, SupersedeIds(start, article, table), now)
  }

  /** The effective set after some targets, and the rows appended on the way. */
  datatype Pass = Pass(tags: Tags, rows: seq<TagRow>)

  predicate Matched(index: Index, article: string) {
    article in index && index[article].readable && index[article].rule.Some?
  }

  /** One target; `start` is the effective set the pass began with. */
  function Visit(start: Tags, pass: Pass, index: Index, table: RuleTable, article: string, now: string): Pass {
    if !Matched(index, article) then pass
    else
      var q := RequestFor(start, article, index[article].rule.value, table, now);
      if TagStatus(pass.tags, q).Added? then Pass(Tagged(pass.tags, q), pass.rows + [RowOf(q)]) else pass
  }

  function VisitAll(start: Tags, index: Index, table: RuleTable, targets: seq<string>, now: string): Pass {
    if targets == [] then Pass(start, [])
    else
      var n := |targets| - 1;
      Visit(start, VisitAll(start, index, table, targets[..n], now), index, table, targets[n], now)
  }

  /** The targets before the first that is not in the index, where a pass stops. */
  function Visited(index: Index, targets: seq<string>): seq<string> {
    if targets == [] || targets[0] !in index then [] else [targets[0]] + Visited(index, targets[1..])
  }

  lemma {:induction false} VisitedIs(index: Index, targets: seq<string>, n: nat)
    requires n <= |targets| && (n < |targets| ==> targets[n] !in index) && forall j | 0 <= j < n :: targets[j] in index
    ensures Visited(index, targets) == targets[..n]
    decreases n
  {
    if n > 0 {
      VisitedIs(index, targets[1..], n - 1);
      assert targets[..n] == [targets[0]] + targets[1..][..n - 1];
    }
  }

  predicate NoOrphans(index: Index, targets: seq<string>) {
    forall a | a in targets :: a in index
  }

  lemma {:induction false} VisitedAreTargets(index: Index, targets: seq<string>)
    ensures forall a | a in Visited(index, targets) :: a in targets && a in index
    ensures NoOrphans(index, targets) ==> Visited(index, targets) == targets
  {
    if targets != [] {
      VisitedAreTargets(index, targets[1..]);
      assert targets == [targets[0]] + targets[1..];
    }
  }

  /** How a target ended; the source counts each kind. */
  datatype Outcome = FileMissing | Unmatchable | Tried(status: Status) {
    predicate Appended() { Tried? && status.Added? }
  }

  /** Only a readable file with a matching rule is tried. */
  predicate Fitting(outcome: Outcome, entry: Entry) {
    && (outcome.FileMissing? <==> !entry.readable)
    && (outcome.Unmatchable? <==> entry.readable && entry.rule.None?)
  }

  /** Visits every target once, in any order; `done` is what the pass comes to
      on a file that ended in a line break.  In refresh mode a target comes
      from the log and may be absent from the index: the source then stops with a
      key error (`orphan`), having handled the targets before it. */
  method Reconcile(store: TagStore, entries: seq<Entry>, table: RuleTable, refresh: bool, now: string)
    returns (targets: seq<string>, outcomes: seq<Outcome>, tagged: nat, orphan: Option<string>)
    requires store.Valid()
    modifies store
    ensures forall a :: a in targets <==> IsTarget(old(store.Effective()), ById(entries), table, refresh, a)
    ensures forall i, j | 0 <= i < j < |targets| :: targets[i] != targets[j]
    ensures orphan.Some? <==> exists a :: a in targets && a !in ById(entries)
    ensures |outcomes| <= |targets| && (orphan.None? <==> |outcomes| == |targets|)
    ensures forall j | 0 <= j < |outcomes| :: targets[j] in ById(entries) && Fitting(outcomes[j], ById(entries)[targets[j]])
    ensures
      var done := VisitAll(old(store.Effective()), ById(entries), table, Visited(ById(entries), targets), now);
      Framing.Ended(old(store.text)) ==> Holds(store, old(store.text), done) && tagged == |done.rows|
  {
    ghost var start := store.Effective();
    var index := IndexOf(entries);
    var wins := store.EffectiveWins();
    var active := map k | k in wins && wins[k].action.Add? :: wins[k];
    assert active == start;
    targets := Targets(active, index, table, refresh);
    outcomes, tagged, orphan := Walk(store, active, index, table, targets, now);
    VisitedIs(index, targets, |outcomes|);
    if orphan.Some? {
      assert targets[|outcomes|] in targets;
    }
  }

  /** The text after a line was appended for each row. */
  function Extended(d: Disk, text: string, rows: seq<TagRow>): string {
    if rows == [] then text else Extended(d, text, rows[..|rows| - 1]) + d.line(rows[|rows| - 1])
  }

  /** What the store holds after a pass that began with `text`. */
  ghost predicate Holds(store: TagStore, text: string, done: Pass)
    reads store
  {
    && store.Effective() == done.tags && store.text == Extended(store.disk, text, done.rows)
    && Framing.Ended(store.text)
  }

  /** The reconciler's loop over its targets. */
  method Walk(store: TagStore, active: Tags, index: Index, table: RuleTable, targets: seq<string>, now: string)
    returns (outcomes: seq<Outcome>, tagged: nat, orphan: Option<string>)
    requires store.Valid() && store.Effective() == active
    modifies store
    ensures |outcomes| <= |targets|
    ensures forall j | 0 <= j < |outcomes| :: targets[j] in index && Fitting(outcomes[j], index[targets[j]])
    ensures orphan.None? <==> |outcomes| == |targets|
    ensures orphan.Some? ==> orphan.value == targets[|outcomes|] && orphan.value !in index
    ensures
      var done := VisitAll(active, index, table, targets[..|outcomes|], now);
      Framing.Ended(old(store.text)) ==> Holds(store, old(store.text), done) && tagged == |done.rows|
  {
    outcomes, tagged, orphan := [], 0, None;
    ghost var text := store.text;
    ghost var done := Pass(active, []);
    var i := 0;
    while i < |targets|
      invariant 0 <= i <= |targets| && |outcomes| == i && orphan.None?
      invariant forall j | 0 <= j < i :: targets[j] in index && Fitting(outcomes[j], index[targets[j]])
      invariant done == VisitAll(active, index, table, targets[..i], now)
      invariant Framing.Ended(text) ==> Holds(store, text, done) && tagged == |done.rows|
    {
      if targets[i] !in index {
        orphan := Some(targets[i]);
        return;
      }
      var outcome;
      outcome, done := VisitOne(store, text, done, active, index, table, targets[i], now);
      outcomes, tagged := outcomes + [outcome], if outcome.Appended() then tagged + 1 else tagged;
      VisitAllStep(active, index, table, targets, i, now);
      i := i + 1;
    }
  }

  lemma VisitAllStep(start: Tags, index: Index, table: RuleTable, targets: seq<string>, i: nat, now: string)
    requires i < |targets|
    ensures VisitAll(start, index, table, targets[..i + 1], now) ==
            Visit(start, VisitAll(start, index, table, targets[..i], now), index, table, targets[i], now)
  {
    assert targets[..i + 1][..i] == targets[..i];
  }

  method VisitOne(store: TagStore, ghost text: string, ghost done: Pass, active: Tags, index: Index,
                  table: RuleTable, article: string, now: string)
    returns (outcome: Outcome, ghost after: Pass)
    requires store.Valid() && article in index
    requires Framing.Ended(text) ==> Holds(store, text, done)
    modifies store
    ensures after == Visit(active, done, index, table, article, now) && Fitting(outcome, index[article])
    ensures Framing.Ended(text) ==>
              Holds(store, text, after) && |after.rows| == |done.rows| + if outcome.Appended() then 1 else 0
  {
    after := Visit(active, done, index, table, article, now);
    if !index[article].readable {
      outcome := FileMissing;
    } else if index[article].rule.None? {
      outcome := Unmatchable;
    } else {
      var q := RequestFor(active, article, index[article].rule.value, table, now);
      var status := store.TagArticle(q);
      assert (done.rows + [RowOf(q)])[..|done.rows|] == done.rows;
      outcome := Tried(status);
    }
  }

  method IndexOf(entries: seq<Entry>) returns (index: Index)
    ensures index == ById(entries)
  {
    index := map[];
    for i := 0 to |entries|
      invariant index == ById(entries[..i])
    {
      assert entries[..i + 1][..i] == entries[..i];
      if entries[i].id != "" {
        index := index[entries[i].id := entries[i]];
      }
    }
    assert entries[..|entries|] == entries;
  }

  method Targets(tags: Tags, index: Index, table: RuleTable, refresh: bool) returns (targets: seq<string>)
    ensures forall a :: a in targets <==> IsTarget(tags, index, table, refresh, a)
    ensures forall i, j | 0 <= i < j < |targets| :: targets[i] != targets[j]
  {
    var candidates := if refresh then set k | k in tags :: k.0 else index.Keys;
    var todo := set a | a in candidates && IsTarget(tags, index, table, refresh, a);
    ghost var all := todo;
    forall a | IsTarget(tags, index, table, refresh, a) ensures a in todo {
      if refresh {
        var k :| k in tags && k.0 == a;
        assert k.0 in candidates;
      }
    }
    targets := [];
    while todo != {}
      invariant forall a :: a in all <==> a in todo || a in targets
      invariant forall a :: a in todo ==> a !in targets
      invariant forall i, j | 0 <= i < j < |targets| :: targets[i] != targets[j]
      decreases todo
    {
      var a :| a in todo;
      todo := todo - {a};
      targets := targets + [a];
    }
  }

  // ---- what a pass does, and that a second pass does nothing ----------

  predicate AllTrimmed(ids: seq<string>) {
    forall a | a in ids :: Trimmed(a)
  }

  function StrippedIds(targets: seq<string>): set<string> {
    set a | a in targets :: Strip(a)
  }

  predicate Unchanged(start: Tags, tags: Tags, k: Key) {
    k in start && k in tags && tags[k] == start[k]
  }

  predicate Written(tags: Tags, k: Key, table: RuleTable, ids: set<string>) {
    k in tags && KeyOf(tags[k]) == k && tags[k].dim == Content && tags[k].ruleId == table.ruleId && k.0 in ids
  }

  /** The tags of `start`, plus content tags of the current rule on some articles. */
  predicate OnlyAdds(start: Tags, tags: Tags, table: RuleTable, ids: set<string>) {
    && (forall k | k in start :: k in tags && (start[k].dim == Content ==> tags[k].dim == Content))
    && (forall k | k in tags :: Unchanged(start, tags, k) || Written(tags, k, table, ids))
  }

  lemma OnlyAddsOneMore(start: Tags, before: Tags, row: TagRow, table: RuleTable, ids: set<string>)
    requires OnlyAdds(start, before, table, ids)
    requires row.dim == Content && row.ruleId == table.ruleId && row.articleId in ids
    ensures OnlyAdds(start, before[KeyOf(row) := row], table, ids)
  {
    var after := before[KeyOf(row) := row];
    forall k | k in after ensures Unchanged(start, after, k) || Written(after, k, table, ids) {
      if k != KeyOf(row) {
        assert Unchanged(start, before, k) || Written(before, k, table, ids);
      }
    }
  }

  /** A visit leaves the tags alone or writes the row of its request. */
  lemma VisitShape(start: Tags, pass: Pass, index: Index, table: RuleTable, article: string, now: string) returns (q: Request)
    ensures q.dim == Content && q.ruleId == table.ruleId && q.article == article
    ensures
      var after := Visit(start, pass, index, table, article, now);
      after == pass || after.tags == Tagged(pass.tags, q)
  {
    var tag := if Matched(index, article) then index[article].rule.value else "";
    q := RequestFor(start, article, tag, table, now);
  }

  /** A pass only adds content rows of the current rule, and drops no tag. */
  lemma {:induction false} PassOnlyAdds(start: Tags, index: Index, table: RuleTable, targets: seq<string>, now: string, ids: set<string>)
    requires forall a | a in targets :: Strip(a) in ids
    ensures OnlyAdds(start, VisitAll(start, index, table, targets, now).tags, table, ids)
  {
    if targets != [] {
      var n := |targets| - 1;
      assert forall a | a in targets[..n] :: a in targets;
      PassOnlyAdds(start, index, table, targets[..n], now, ids);
      var before := VisitAll(start, index, table, targets[..n], now);
      var q := VisitShape(start, before, index, table, targets[n], now);
      OnlyAddsOneMore(start, before.tags, RowOf(q), table, ids);
    }
  }

  /** Visiting this target again would append nothing. */
  predicate Done(start: Tags, tags: Tags, index: Index, table: RuleTable, article: string) {
    Matched(index, article) ==>
      !TagStatus(tags, RequestFor(start, article, index[article].rule.value, table, "")).Added?
  }

  /** The row that a pass writes for a target, unless the target already is done,
      reads back. */
  predicate WritesPlain(start: Tags, index: Index, table: RuleTable, article: string, now: string) {
    Matched(index, article) && !Done(start, start, index, table, article) ==>
      Plain(RowOf(RequestFor(start, article, index[article].rule.value, table, now)))
  }

  lemma StatusIgnoresTime(tags: Tags, q: Request, now: string)
    requires q.dim == Content
    ensures TagStatus(tags, q) == TagStatus(tags, q.(now := now))
  {
    assert KeyOf(RowOf(q)) == KeyOf(RowOf(q.(now := now)));
  }

  predicate SameAt(tags: Tags, other: Tags, k: Key) {
    (k in tags <==> k in other) && (k in tags ==> tags[k] == other[k])
  }

  /** The answer to a content request depends on one key only. */
  lemma StatusIsLocal(tags: Tags, other: Tags, q: Request, r: Request)
    requires q.dim == Content && r == q.(now := r.now) && SameAt(tags, other, KeyOf(RowOf(q)))
    ensures TagStatus(tags, q) == TagStatus(other, r)
  {
    assert KeyOf(RowOf(q)) == KeyOf(RowOf(r));
  }

  /** What one request settled, a later request of the same rule leaves settled. */
  lemma LaterRequestKeepsSettled(tags: Tags, q: Request, r: Request)
    requires q.dim == Content && r.dim == Content && q.ruleId == r.ruleId && q.ruleId !in q.supersede
    requires !TagStatus(tags, q).Added?
    ensures !TagStatus(Tagged(tags, r), q).Added?
  {
    if !Refused(tags, q) {
      assert KeyOf(RowOf(q)) in Tagged(tags, r);
    }
  }

  lemma VisitSettles(start: Tags, pass: Pass, index: Index, table: RuleTable, article: string, now: string)
    requires Matched(index, article) ==> Plain(RowOf(RequestFor(start, article, index[article].rule.value, table, now)))
    ensures Done(start, Visit(start, pass, index, table, article, now).tags, index, table, article)
  {
    if Matched(index, article) {
      var q := RequestFor(start, article, index[article].rule.value, table, now);
      assert q.ruleId !in q.supersede;
      assert q.(now := "") == RequestFor(start, article, index[article].rule.value, table, "");
      assert Visit(start, pass, index, table, article, now).tags == Tagged(pass.tags, q);
      if TagStatus(pass.tags, q).Added? {
        SecondAddIsSkippedWhenPlain(pass.tags, q);
      }
      StatusIgnoresTime(Tagged(pass.tags, q), q, "");
    }
  }

  lemma VisitKeepsDone(start: Tags, pass: Pass, index: Index, table: RuleTable, other: string, now: string, article: string)
    requires Done(start, pass.tags, index, table, article)
    ensures Done(start, Visit(start, pass, index, table, other, now).tags, index, table, article)
  {
    if Matched(index, article) && Matched(index, other) {
      var q := RequestFor(start, article, index[article].rule.value, table, "");
      var r := RequestFor(start, other, index[other].rule.value, table, now);
      assert q.ruleId !in q.supersede;
      LaterRequestKeepsSettled(pass.tags, q, r);
    }
  }

  lemma {:induction false} PlainTargetIsDone(start: Tags, index: Index, table: RuleTable, targets: seq<string>, now: string, article: string)
    requires article in targets
    requires Matched(index, article) ==> Plain(RowOf(RequestFor(start, article, index[article].rule.value, table, now)))
    ensures Done(start, VisitAll(start, index, table, targets, now).tags, index, table, article)
  {
    var n := |targets| - 1;
    var before := VisitAll(start, index, table, targets[..n], now);
    if targets[n] == article {
      VisitSettles(start, before, index, table, article, now);
    } else {
      PlainTargetIsDone(start, index, table, targets[..n], now, article);
      VisitKeepsDone(start, before, index, table, targets[n], now, article);
    }
  }

  /** All rows that a pass writes for one key are the same row, so a key whose row
      does not read back keeps what it had. */
  lemma {:induction false} UnplainKeyStays(start: Tags, index: Index, table: RuleTable, targets: seq<string>, now: string, article: string, tag: string)
    requires !Plain(RowOf(RequestFor(start, article, tag, table, now)))
    ensures SameAt(VisitAll(start, index, table, targets, now).tags, start, (Strip(article), Strip(tag)))
  {
    if targets != [] {
      var n := |targets| - 1;
      UnplainKeyStays(start, index, table, targets[..n], now, article, tag);
      var row := RowOf(RequestFor(start, article, tag, table, now));
      if Matched(index, targets[n]) {
        var other := RowOf(RequestFor(start, targets[n], index[targets[n]].rule.value, table, now));
        assert KeyOf(other) == KeyOf(row) ==> other == row;
      }
    }
  }

  /** A pass finishes a target exactly when the row it writes for it reads back. */
  lemma PassFinishesTargets(start: Tags, index: Index, table: RuleTable, targets: seq<string>, now: string, article: string)
    requires article in targets
    ensures
      var tags := VisitAll(start, index, table, targets, now).tags;
      Done(start, tags, index, table, article) <==> WritesPlain(start, index, table, article, now)
  {
    if Matched(index, article) {
      var tag := index[article].rule.value;
      var q := RequestFor(start, article, tag, table, now);
      if Plain(RowOf(q)) {
        PlainTargetIsDone(start, index, table, targets, now, article);
      } else {
        UnplainKeyStays(start, index, table, targets, now, article, tag);
        StatusIsLocal(VisitAll(start, index, table, targets, now).tags, start, q.(now := ""), q.(now := ""));
      }
    }
  }

  lemma {:induction false} AllDoneAppendsNothing(tags: Tags, index: Index, table: RuleTable, targets: seq<string>, now: string)
    requires forall a | a in targets :: Done(tags, tags, index, table, a)
    ensures VisitAll(tags, index, table, targets, now) == Pass(tags, [])
  {
    if targets != [] {
      var n := |targets| - 1;
      var a := targets[n];
      AllDoneAppendsNothing(tags, index, table, targets[..n], now);
      assert Done(tags, tags, index, table, a);
      if Matched(index, a) {
        StatusIgnoresTime(tags, RequestFor(tags, a, index[a].rule.value, table, ""), now);
      }
    }
  }

  lemma {:induction false} NoRowsNoChange(start: Tags, index: Index, table: RuleTable, targets: seq<string>, now: string)
    requires VisitAll(start, index, table, targets, now).rows == []
    ensures VisitAll(start, index, table, targets, now) == Pass(start, [])
  {
    if targets != [] {
      NoRowsNoChange(start, index, table, targets[..|targets| - 1], now);
    }
  }

  lemma {:induction false} UndoneTargetIsAppended(tags: Tags, index: Index, table: RuleTable, targets: seq<string>, now: string, article: string)
    requires article in targets && !Done(tags, tags, index, table, article)
    ensures VisitAll(tags, index, table, targets, now).rows != []
  {
    var n := |targets| - 1;
    if targets[n] != article {
      UndoneTargetIsAppended(tags, index, table, targets[..n], now, article);
    } else if VisitAll(tags, index, table, targets[..n], now).rows == [] {
      NoRowsNoChange(tags, index, table, targets[..n], now);
      StatusIgnoresTime(tags, RequestFor(tags, article, index[article].rule.value, table, ""), now);
    }
  }

  /** Every target of a second pass was a target of the first, and the rules it
      may supersede are among those it might supersede then. */
  lemma SecondTargetsWereFirst(start: Tags, tags: Tags, index: Index, table: RuleTable, refresh: bool, targets: seq<string>, article: string)
    requires forall a :: a in targets <==> IsTarget(start, index, table, refresh, a)
    requires refresh ==> AllTrimmed(targets)
    requires OnlyAdds(start, tags, table, StrippedIds(targets))
    requires IsTarget(tags, index, table, refresh, article)
    ensures article in targets
    ensures SupersedeIds(tags, article, table) <= SupersedeIds(start, article, table)
  {
    if refresh {
      var k :| k in tags && k.0 == article && tags[k].dim == Content && Stale(tags[k], table);
      if !Unchanged(start, tags, k) {
        assert Written(tags, k, table, StrippedIds(targets));
        var a :| a in targets && article == Strip(a);
        StripOfTrimmed(a);
      }
    } else {
      assert !HasContent(start, article);
    }
    forall r | r in SupersedeIds(tags, article, table) ensures r in SupersedeIds(start, article, table) {
      var k :| k in tags && k.0 == article && tags[k].dim == Content && tags[k].ruleId != table.ruleId && tags[k].ruleId == r;
      assert Unchanged(start, tags, k);
    }
  }

  lemma FewerSupersedesKeepDone(start: Tags, tags: Tags, index: Index, table: RuleTable, article: string)
    requires Done(start, tags, index, table, article)
    requires SupersedeIds(tags, article, table) <= SupersedeIds(start, article, table)
    ensures Done(tags, tags, index, table, article)
  {
    if Matched(index, article) {
      var tag := index[article].rule.value;
      var q, r := RequestFor(start, article, tag, table, ""), RequestFor(tags, article, tag, table, "");
      assert Refused(tags, q) == Refused(tags, r) && (Supersedes(tags, r) ==> Supersedes(tags, q));
    }
  }

  ghost predicate SameFor(tags: Tags, other: Tags, article: string) {
    forall k: Key :: k.0 == article ==> SameAt(tags, other, k)
  }

  /** With trimmed targets, only an article's own visit writes under its id. */
  lemma {:induction false} UnwrittenTargetStays(start: Tags, index: Index, table: RuleTable, targets: seq<string>, now: string, article: string)
    requires AllTrimmed(targets) && Trimmed(article)
    requires !Matched(index, article) || !WritesPlain(start, index, table, article, now)
    ensures SameFor(VisitAll(start, index, table, targets, now).tags, start, article)
  {
    if targets != [] {
      var n := |targets| - 1;
      assert forall a | a in targets[..n] :: a in targets;
      UnwrittenTargetStays(start, index, table, targets[..n], now, article);
      assert targets[n] in targets;
      StripOfTrimmed(targets[n]);
    }
  }

  /** An article whose tags did not change is a target again, with the same rules
      to supersede and the same answer. */
  lemma SameForKeepsTarget(start: Tags, tags: Tags, index: Index, table: RuleTable, refresh: bool, article: string)
    requires SameFor(tags, start, article)
    ensures IsTarget(tags, index, table, refresh, article) <==> IsTarget(start, index, table, refresh, article)
    ensures SupersedeIds(tags, article, table) == SupersedeIds(start, article, table)
  {
    forall k | k in tags && k.0 == article ensures k in start && start[k] == tags[k] {
      assert SameAt(tags, start, k);
    }
    forall k | k in start && k.0 == article ensures k in tags && start[k] == tags[k] {
      assert SameAt(tags, start, k);
    }
  }

  lemma SameForKeepsDone(start: Tags, tags: Tags, index: Index, table: RuleTable, article: string)
    requires SameFor(tags, start, article) && Trimmed(article)
    ensures Done(tags, tags, index, table, article) <==> Done(start, start, index, table, article)
  {
    if Matched(index, article) {
      SameForKeepsTarget(start, tags, index, table, false, article);
      var q := RequestFor(start, article, index[article].rule.value, table, "");
      StripOfTrimmed(article);
      assert SameAt(tags, start, KeyOf(RowOf(q)));
      StatusIsLocal(tags, start, q, q);
    }
  }

  ghost predicate AllWritePlain(start: Tags, index: Index, table: RuleTable, targets: seq<string>, now: string) {
    forall a | a in targets :: WritesPlain(start, index, table, a, now)
  }

  /** A second pass that visits nothing the first did not, when every row the
      first wrote reads back. */
  lemma PlainPassIsFinal(start: Tags, index: Index, table: RuleTable, refresh: bool,
                         first: seq<string>, done: seq<string>, again: seq<string>, now: string, later: string)
    requires refresh ==> AllTrimmed(first)
    requires forall a :: a in first <==> IsTarget(start, index, table, refresh, a)
    requires (forall a | a in done :: a in first) && AllWritePlain(start, index, table, done, now)
    requires
      var tags := VisitAll(start, index, table, done, now).tags;
      forall a | a in again :: a in done && IsTarget(tags, index, table, refresh, a)
    ensures
      var tags := VisitAll(start, index, table, done, now).tags;
      VisitAll(tags, index, table, again, later) == Pass(tags, [])
  {
    var tags := VisitAll(start, index, table, done, now).tags;
    PassOnlyAdds(start, index, table, done, now, StrippedIds(first));
    forall a | a in again ensures Done(tags, tags, index, table, a) {
      SecondTargetsWereFirst(start, tags, index, table, refresh, first, a);
      PassFinishesTargets(start, index, table, done, now, a);
      FewerSupersedesKeepDone(start, tags, index, table, a);
    }
    AllDoneAppendsNothing(tags, index, table, again, later);
  }

  /** A target that the pass did not write plainly is a target again. */
  lemma UnwrittenTargetReturns(start: Tags, index: Index, table: RuleTable, refresh: bool, done: seq<string>, now: string, article: string)
    requires AllTrimmed(done) && Trimmed(article) && IsTarget(start, index, table, refresh, article)
    requires !Matched(index, article) || !WritesPlain(start, index, table, article, now)
    ensures
      var tags := VisitAll(start, index, table, done, now).tags;
      && IsTarget(tags, index, table, refresh, article)
      && (Done(tags, tags, index, table, article) <==> Done(start, start, index, table, article))
  {
    var tags := VisitAll(start, index, table, done, now).tags;
    UnwrittenTargetStays(start, index, table, done, now, article);
    SameForKeepsTarget(start, tags, index, table, refresh, article);
    SameForKeepsDone(start, tags, index, table, article);
  }

  /** Reconciling twice with the same index and rules, in the same mode and in any
      order of the targets, each pass stopping at its first orphan.  When every row
      the first pass writes reads back, the second appends nothing for what the
      first visited; without orphans and for ids without outer white space, it
      appends nothing exactly then.  An orphan is a target of the second pass too.
      Refresh needs such ids, which is all the store itself ever writes. */
  lemma ReconcileIsIdempotent(start: Tags, index: Index, table: RuleTable, refresh: bool,
                              first: seq<string>, second: seq<string>, now: string, later: string)
    requires refresh ==> AllTrimmed(first)
    requires forall a :: a in first <==> IsTarget(start, index, table, refresh, a)
    requires
      var tags := VisitAll(start, index, table, Visited(index, first), now).tags;
      forall a :: a in second <==> IsTarget(tags, index, table, refresh, a)
    ensures
      var done := Visited(index, first);
      var tags := VisitAll(start, index, table, done, now).tags;
      var again := VisitAll(tags, index, table, Visited(index, second), later);
      && start.Keys <= tags.Keys
      && (AllWritePlain(start, index, table, done, now) && (forall a | a in Visited(index, second) :: a in done) ==> again == Pass(tags, []))
      && (NoOrphans(index, first) && AllWritePlain(start, index, table, first, now) ==> again == Pass(tags, []))
      && (NoOrphans(index, first) && AllTrimmed(first) ==> (again.rows == [] <==> AllWritePlain(start, index, table, first, now)))
      && (AllTrimmed(first) ==> forall a | a in first && a !in index :: a in second)
  {
    var done := Visited(index, first);
    var tags := VisitAll(start, index, table, done, now).tags;
    VisitedAreTargets(index, first);
    VisitedAreTargets(index, second);
    PassOnlyAdds(start, index, table, done, now, StrippedIds(first));
    forall a | a in second ensures a in first {
      SecondTargetsWereFirst(start, tags, index, table, refresh, first, a);
    }
    if AllWritePlain(start, index, table, done, now) && (forall a | a in Visited(index, second) :: a in done) {
      PlainPassIsFinal(start, index, table, refresh, first, done, Visited(index, second), now, later);
    }
    if AllTrimmed(first) {
      forall a | a in first && a !in index ensures a in second {
        UnwrittenTargetReturns(start, index, table, refresh, done, now, a);
      }
      if NoOrphans(index, first) && !AllWritePlain(start, index, table, first, now) {
        var a :| a in first && !WritesPlain(start, index, table, a, now);
        UnwrittenTargetReturns(start, index, table, refresh, done, now, a);
        UndoneTargetIsAppended(tags, index, table, second, later, a);
      }
    }
  }

  lemma StoreWritesTrimmedKeys(tags: Tags, q: Request)
    requires forall k | k in tags :: Trimmed(k.0)
    ensures forall k | k in Tagged(tags, q) :: Trimmed(k.0)
  {
    StripTrims(q.article);
  }

  function SpacedIndex(): Index {
    map[" a" := Entry(" a", true, Some("t")), "a" := Entry("a", true, Some("u"))]
  }

  lemma SpacedTarget(row: TagRow, table: RuleTable)
    requires row.dim == Content && row.ruleId != table.ruleId
    ensures forall a :: a in [" a"] <==> IsTarget(map[(" a", "x") := row], SpacedIndex(), table, true, a)
  {
    var start: Tags := map[(" a", "x") := row];
    assert (" a", "x") in start && (" a", "x").0 == " a";
  }

  /** Why refresh needs trimmed ids: a row written by other means under " a" makes
      the first pass tag "a" by a fallback table, and the second pass tag it again. */
  lemma UntrimmedIdIsRefreshedTwice(row: TagRow, table: RuleTable)
    requires row.articleId == " a" && row.tag == "x" && row.dim == Content && row.ruleId == "old"
    requires table == RuleTable("new", true)
    ensures
      var start: Tags := map[(" a", "x") := row];
      var first := VisitAll(start, SpacedIndex(), table, [" a"], "").tags;
      && (forall a :: a in [" a"] <==> IsTarget(start, SpacedIndex(), table, true, a))
      && IsTarget(first, SpacedIndex(), table, true, "a")
      && VisitAll(first, SpacedIndex(), table, ["a"], "").rows != []
  {
    var start: Tags := map[(" a", "x") := row];
    SpacedTarget(row, table);
    assert Lead(" a", 0) == 1 && Trail(" a", 1, 2) == 2 && Strip(" a") == "a";
    AsciiIsPlain("a");
    AsciiIsPlain("new");
    VisitFirst(start, SpacedIndex(), table, " a", "t");
    var first := VisitAll(start, SpacedIndex(), table, [" a"], "").tags;
    assert ("a", "t") in first && Stale(first[("a", "t")], table);
    StripOfTrimmed("a");
    VisitFirst(first, SpacedIndex(), table, "a", "u");
  }

  lemma AsciiIsPlain(s: string)
    requires forall i | 0 <= i < |s| :: s[i] as int < 0x80
    ensures PlainText(s)
  {
  }

  lemma VisitFirst(start: Tags, index: Index, table: RuleTable, article: string, tag: string)
    requires article in index && index[article] == Entry(article, true, Some(tag))
    requires Strip(article) != "" && tag != "" && Trimmed(tag) && table.ruleId != ""
    requires (Strip(article), tag) !in start
    requires PlainText(Strip(article)) && PlainText(table.ruleId) && |tag| == 1 && tag[0] as int < 0x80
    ensures
      var row := RowOf(RequestFor(start, article, tag, table, ""));
      KeyOf(row) == (Strip(article), tag) && VisitAll(start, index, table, [article], "") == Pass(start[KeyOf(row) := row], [row])
  {
    StripOfTrimmed(tag);
    AsciiIsPlain(tag);
    AsciiIsPlain("auto");
    assert [article][..0] == [];
    assert VisitAll(start, index, table, [], "") == Pass(start, []);
  }
}
