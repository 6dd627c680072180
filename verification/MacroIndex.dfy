/** The macro index: one file of entries, merged in place by three loops.

    The file is a map from article ids to entries; the order in which it lists
    them is not part of the model. */
module MacroIndex {
  import opened Text

  const TITLE_MAX := 160
  const DATE_MAX := 10

  datatype Source = ManualKeep | DailyHot | Rule | OtherSource

  /** `companies` is None when the row does not hold a list. */
  datatype Row = Row(id: string, title: string, column: string, companies: Option<nat>, date: string, score: string)

  datatype Entry = Entry(
    title: string, column: string, date: string, score: string, companyCount: nat,
    source: Source, reason: Option<string>, terms: seq<string>, version: int, taggedAt: string)

  /** `clean` removes what the rate-term pattern matches. */
  datatype Rules = Rules(
    version: int, kept: map<string, Option<string>>, excluded: set<string>, dailyColumns: set<string>,
    scannable: set<string>, reportTerms: seq<string>, companyMin: int, clean: string -> string, macroTerms: seq<string>)

  datatype Verdict = Verdict(source: Source, reason: Option<string>, terms: seq<string>)

  type Entries = map<string, Entry>
  type Index = map<string, Row>

  datatype Payload = Payload(version: int, baselineAt: Option<string>, updatedAt: string, entries: Entries)

  datatype Report = Report(tagged: nat, updated: nat, already: nat, removed: nat, seeded: bool, lockBusy: bool)

  // ---- classification -------------------------------------------------

  predicate AnyIn(terms: seq<string>, s: string) {
    exists i | 0 <= i < |terms| :: Contains(s, terms[i])
  }

  function Matched(terms: seq<string>, cleaned: string, title: string): seq<string> {
    if terms == [] then []
    else
      var rest := Matched(terms[..|terms| - 1], cleaned, title);
      var term := terms[|terms| - 1];
      if Contains(cleaned, term) || Contains(title, term) then rest + [term] else rest
  }

  function Classify(row: Row, rules: Rules): Option<Verdict> {
    if row.id == "" then None
    else if row.id in rules.kept then Some(Verdict(ManualKeep, rules.kept[row.id], []))
    else if row.column in rules.dailyColumns then Some(Verdict(DailyHot, Some("每日热点并入"), ["ai_summary_reference"]))
    else if row.column !in rules.scannable || AnyIn(rules.reportTerms, row.title) then None
    else if row.companies.Some? && row.companies.value >= rules.companyMin then None
    else
      var terms := Matched(rules.macroTerms, rules.clean(row.title), row.title);
      if terms == [] then None else Some(Verdict(Rule, None, terms))
  }

  function Prefix(s: string, n: nat): string {
    if |s| <= n then s else s[..n]
  }

  function EntryFrom(row: Row, v: Verdict, version: int, stamp: string): Entry {
    Entry(Prefix(row.title, TITLE_MAX), row.column, Prefix(row.date, DATE_MAX), row.score,
          if row.companies.Some? then row.companies.value else 0, v.source, v.reason, v.terms, version, stamp)
  }

  /** What an entry remembers of its row. */
  function Snapshot(id: string, e: Entry): Row {
    Row(id, e.title, e.column, Some(e.companyCount), "", "")
  }

  // ---- the three loops, one id at a time ------------------------------

  datatype Effect = Same(entry: Option<Entry>) | Tagged(entry: Option<Entry>) | Updated(entry: Option<Entry>)
                  | Touched(entry: Option<Entry>) | Already(entry: Option<Entry>) | Removed

  function After(x: Effect): Option<Entry> {
    if x.Removed? then None else x.entry
  }

  /** The rules version and the exclusions, on an entry already in the file. */
  function Review(id: string, e: Option<Entry>, rules: Rules, stamp: string): Effect {
    if e.None? then Same(None)
    else
      var entry := e.value;
      if id in rules.excluded then Removed
      else if entry.source.ManualKeep? then
        (if id !in rules.kept then Removed
         else if entry.version != rules.version then Touched(Some(entry.(version := rules.version, taggedAt := stamp)))
         else Same(e))
      else if entry.version == rules.version then Same(e)
      else
        match Classify(Snapshot(id, entry), rules)
        case None => Removed
        case Some(v) =>
          Updated(Some(entry.(source := v.source, reason := v.reason, terms := v.terms, version := rules.version, taggedAt := stamp)))
  }

  /** The baseline takes kept and daily rows only. */
  function Seed(id: string, e: Option<Entry>, index: Index, rules: Rules, stamp: string): Effect {
    if id !in index || id in rules.excluded then Same(e)
    else
      match Classify(index[id], rules)
      case None => Same(e)
      case Some(v) =>
        if v.source.Rule? || e.Some? then Same(e) else Tagged(Some(EntryFrom(index[id], v, rules.version, stamp)))
  }

  function Request(id: string, e: Option<Entry>, index: Index, rules: Rules, stamp: string): Effect {
    if id !in index then Same(e)
    else if id in rules.excluded then (if e.Some? then Removed else Same(e))
    else
      match Classify(index[id], rules)
      case None => if e.Some? && !e.value.source.ManualKeep? then Removed else Same(e)
      case Some(v) =>
        var made := EntryFrom(index[id], v, rules.version, stamp);
        if e.None? then Tagged(Some(made))
        else if e.value.source != v.source || e.value.terms != v.terms || e.value.version != rules.version then Updated(Some(made))
        else Already(e)
  }

  type Act = (string, Option<Entry>) -> Effect

  function Reviewing(rules: Rules, stamp: string): Act {
    (id, e) => Review(id, e, rules, stamp)
  }

  function Seeding(index: Index, rules: Rules, stamp: string): Act {
    (id, e) => Seed(id, e, index, rules, stamp)
  }

  function Requesting(index: Index, rules: Rules, stamp: string): Act {
    (id, e) => Request(id, e, index, rules, stamp)
  }

  // ---- a loop over some ids -------------------------------------------

  function Get(m: Entries, id: string): Option<Entry> {
    if id in m then Some(m[id]) else None
  }

  function Put(m: Entries, id: string, e: Option<Entry>): Entries {
    if e.Some? then m[id := e.value] else m - {id}
  }

  function AfterAt(m: Entries, ids: set<string>, f: Act, id: string): Option<Entry> {
    if id in ids then After(f(id, Get(m, id))) else Get(m, id)
  }

  function Phase(m: Entries, ids: set<string>, f: Act): Entries {
    map id | id in m.Keys + ids && AfterAt(m, ids, f, id).Some? :: AfterAt(m, ids, f, id).value
  }

  /** The ids a loop did something of some kind to. */
  function Where(m: Entries, ids: set<string>, f: Act, kind: Effect -> bool): set<string> {
    set id | id in ids && kind(f(id, Get(m, id)))
  }

  function Count(m: Entries, ids: set<string>, f: Act, kind: Effect -> bool): nat {
    |Where(m, ids, f, kind)|
  }

  predicate IsTagged(x: Effect) { x.Tagged? }
  predicate IsUpdated(x: Effect) { x.Updated? }
  predicate IsRemoved(x: Effect) { x.Removed? }
  predicate IsAlready(x: Effect) { x.Already? }
  predicate IsChange(x: Effect) { !x.Same? && !x.Already? }

  lemma PhaseStep(m: Entries, ids: set<string>, f: Act, id: string)
    requires id !in ids
    ensures Get(Phase(m, ids, f), id) == Get(m, id)
    ensures Phase(m, ids + {id}, f) == Put(Phase(m, ids, f), id, After(f(id, Get(m, id))))
  {
    var x, y := Phase(m, ids + {id}, f), Put(Phase(m, ids, f), id, After(f(id, Get(m, id))));
    forall k ensures Get(x, k) == Get(y, k) {
      assert Get(x, k) == AfterAt(m, ids + {id}, f, k);
    }
    SameMaps(x, y);
  }

  lemma SameMaps(x: Entries, y: Entries)
    requires forall k :: Get(x, k) == Get(y, k)
    ensures x == y
  {
    forall k ensures k in x <==> k in y {
      assert Get(x, k) == Get(y, k);
    }
    forall k | k in x ensures x[k] == y[k] {
      assert Get(x, k) == Get(y, k);
    }
  }

  lemma CountStep(m: Entries, ids: set<string>, f: Act, id: string, kind: Effect -> bool)
    requires id !in ids
    ensures Count(m, ids + {id}, f, kind) == Count(m, ids, f, kind) + if kind(f(id, Get(m, id))) then 1 else 0
  {
    var was, now := Where(m, ids, f, kind), Where(m, ids + {id}, f, kind);
    assert now == if kind(f(id, Get(m, id))) then was + {id} else was;
  }

  // ---- the whole update -----------------------------------------------

  /** The file as the loops start on it: a missing or unreadable one is empty. */
  function Before(file: Option<Payload>): Entries {
    if file.Some? then file.value.entries else map[]
  }

  predicate Seeds(file: Option<Payload>) {
    file.None? || file.value.baselineAt.None?
  }

  datatype Inputs = Inputs(index: Index, rules: Rules, requested: set<string>, stamp: string)

  /** The id a row carries is the key it is found by. */
  predicate GoodIndex(index: Index) {
    forall id | id in index :: index[id].id == id && id != ""
  }

  function Reviewed(file: Option<Payload>, x: Inputs): Entries {
    Phase(Before(file), Before(file).Keys, Reviewing(x.rules, x.stamp))
  }

  function SeedIds(file: Option<Payload>, x: Inputs): set<string> {
    if Seeds(file) then x.index.Keys else {}
  }

  function Seeded(file: Option<Payload>, x: Inputs): Entries {
    Phase(Reviewed(file, x), SeedIds(file, x), Seeding(x.index, x.rules, x.stamp))
  }

  function Merged(file: Option<Payload>, x: Inputs): Entries {
    Phase(Seeded(file, x), x.requested, Requesting(x.index, x.rules, x.stamp))
  }

  /** The report's counters, and how many changes there were. */
  datatype Tally = Tally(tagged: nat, updated: nat, already: nat, removed: nat, changes: nat)

  const ZERO := Tally(0, 0, 0, 0, 0)

  function Bump(t: Tally, x: Effect): Tally {
    match x
    case Same(_) => t
    case Tagged(_) => t.(tagged := t.tagged + 1, changes := t.changes + 1)
    case Updated(_) => t.(updated := t.updated + 1, changes := t.changes + 1)
    case Touched(_) => t.(changes := t.changes + 1)
    case Already(_) => t.(already := t.already + 1)
    case Removed => t.(removed := t.removed + 1, changes := t.changes + 1)
  }

  /** A tally, and one loop's effects on top of it. */
  function Plus(t: Tally, m: Entries, ids: set<string>, f: Act): Tally {
    Tally(t.tagged + Count(m, ids, f, IsTagged), t.updated + Count(m, ids, f, IsUpdated), t.already + Count(m, ids, f, IsAlready),
          t.removed + Count(m, ids, f, IsRemoved), t.changes + Count(m, ids, f, IsChange))
  }

  function TallyOf(file: Option<Payload>, x: Inputs): Tally {
    var one := Plus(ZERO, Before(file), Before(file).Keys, Reviewing(x.rules, x.stamp));
    var two := Plus(one, Reviewed(file, x), SeedIds(file, x), Seeding(x.index, x.rules, x.stamp));
    Plus(two, Seeded(file, x), x.requested, Requesting(x.index, x.rules, x.stamp))
  }

  function FileAfter(file: Option<Payload>, x: Inputs): Option<Payload> {
    if Seeds(file) || TallyOf(file, x).changes > 0 then
      Some(Payload(x.rules.version, Some(if Seeds(file) then x.stamp else file.value.baselineAt.value), x.stamp, Merged(file, x)))
    else file
  }

  class MacroStore {
    var file: Option<Payload>

    constructor (file: Option<Payload>)
      ensures this.file == file
    {
      this.file := file;
    }

    method Update(x: Inputs, locked: bool) returns (r: Report)
      modifies this
      ensures !locked ==> r == Report(0, 0, 0, 0, false, true) && file == old(file)
      ensures locked ==>
                && file == FileAfter(old(file), x) && r.seeded == Seeds(old(file)) && !r.lockBusy
                && Tally(r.tagged, r.updated, r.already, r.removed, TallyOf(old(file), x).changes) == TallyOf(old(file), x)
    {
      r := Report(0, 0, 0, 0, false, false);
      if !locked {
        return r.(lockBusy := true);
      }
      var byId := if file.Some? then file.value.entries else map[];
      var tally := ZERO;
      byId, tally := ReviewAll(byId, x, tally);
      var seeds := file.None? || file.value.baselineAt.None?;
      if seeds {
        byId, tally := SeedAll(byId, x, tally);
      } else {
        LoopStart(tally, byId, Seeding(x.index, x.rules, x.stamp), {});
      }
      byId, tally := RequestAll(byId, x, tally);
      if seeds || tally.changes > 0 {
        var baselineAt := if seeds then x.stamp else file.value.baselineAt.value;
        file := Some(Payload(x.rules.version, Some(baselineAt), x.stamp, byId));
      }
      r := Report(tally.tagged, tally.updated, tally.already, tally.removed, seeds, false);
    }
  }

  /** Both the entries and the counters of a loop, one id later. */
  lemma LoopStep(t: Tally, m: Entries, ids: set<string>, f: Act, id: string)
    requires id !in ids
    ensures Get(Phase(m, ids, f), id) == Get(m, id)
    ensures Phase(m, ids + {id}, f) == Put(Phase(m, ids, f), id, After(f(id, Get(m, id))))
    ensures Plus(t, m, ids + {id}, f) == Bump(Plus(t, m, ids, f), f(id, Get(m, id)))
  {
    PhaseStep(m, ids, f, id);
    CountStep(m, ids, f, id, IsTagged);
    CountStep(m, ids, f, id, IsUpdated);
    CountStep(m, ids, f, id, IsAlready);
    CountStep(m, ids, f, id, IsRemoved);
    CountStep(m, ids, f, id, IsChange);
  }

  /** A loop over all these ids, with some still to do. */
  ghost predicate Looping(t: Tally, m: Entries, f: Act, all: set<string>, todo: set<string>, byId: Entries, tally: Tally) {
    todo <= all && byId == Phase(m, all - todo, f) && tally == Plus(t, m, all - todo, f)
  }

  lemma LoopStart(t: Tally, m: Entries, f: Act, all: set<string>)
    ensures Looping(t, m, f, all, all, m, t)
    ensures Phase(m, {}, f) == m && Plus(t, m, {}, f) == t
  {
    forall id ensures Get(Phase(m, {}, f), id) == Get(m, id) {
    }
    SameMaps(Phase(m, {}, f), m);
    assert forall kind :: Where(m, {}, f, kind) == {};
    assert all - all == {};
  }

  lemma LoopNext(t: Tally, m: Entries, f: Act, all: set<string>, todo: set<string>, byId: Entries, tally: Tally, id: string)
    requires Looping(t, m, f, all, todo, byId, tally) && id in todo
    ensures
      var effect := f(id, Get(byId, id));
      Looping(t, m, f, all, todo - {id}, Put(byId, id, After(effect)), Bump(tally, effect))
    ensures Get(byId, id) == Get(m, id)
  {
    LoopStep(t, m, all - todo, f, id);
    assert all - (todo - {id}) == all - todo + {id};
  }

  lemma LoopEnd(t: Tally, m: Entries, f: Act, all: set<string>, byId: Entries, tally: Tally)
    requires Looping(t, m, f, all, {}, byId, tally)
    ensures byId == Phase(m, all, f) && tally == Plus(t, m, all, f)
  {
    assert all - {} == all;
  }

  method ReviewOne(m: Entries, id: string, x: Inputs, t: Tally) returns (byId: Entries, tally: Tally)
    requires id in m
    ensures
      var effect := Reviewing(x.rules, x.stamp)(id, Get(m, id));
      byId == Put(m, id, After(effect)) && tally == Bump(t, effect)
  {
    byId, tally := m, t;
    var entry := m[id];
    assert m[id := entry] == m;
    if id in x.rules.excluded {
      byId := byId - {id};
      tally := tally.(removed := tally.removed + 1, changes := tally.changes + 1);
    } else if entry.source.ManualKeep? {
      if id !in x.rules.kept {
        byId := byId - {id};
        tally := tally.(removed := tally.removed + 1, changes := tally.changes + 1);
      } else if entry.version != x.rules.version {
        byId := byId[id := entry.(version := x.rules.version, taggedAt := x.stamp)];
        tally := tally.(changes := tally.changes + 1);
      }
    } else if entry.version != x.rules.version {
      var verdict := Classify(Snapshot(id, entry), x.rules);
      if verdict.None? {
        byId := byId - {id};
        tally := tally.(removed := tally.removed + 1);
      } else {
        var v := verdict.value;
        byId := byId[id := entry.(source := v.source, reason := v.reason, terms := v.terms, version := x.rules.version, taggedAt := x.stamp)];
        tally := tally.(updated := tally.updated + 1);
      }
      tally := tally.(changes := tally.changes + 1);
    }
  }

  method SeedOne(m: Entries, id: string, x: Inputs, t: Tally) returns (byId: Entries, tally: Tally)
    requires id in x.index
    ensures
      var effect := Seeding(x.index, x.rules, x.stamp)(id, Get(m, id));
      byId == Put(m, id, After(effect)) && tally == Bump(t, effect)
  {
    byId, tally := m, t;
    assert Put(m, id, Get(m, id)) == m;
    if id !in x.rules.excluded {
      var verdict := Classify(x.index[id], x.rules);
      if verdict.Some? && (verdict.value.source.ManualKeep? || verdict.value.source.DailyHot?) && id !in byId {
        byId := byId[id := EntryFrom(x.index[id], verdict.value, x.rules.version, x.stamp)];
        tally := tally.(tagged := tally.tagged + 1, changes := tally.changes + 1);
      }
    }
  }

  method RequestOne(m: Entries, id: string, x: Inputs, t: Tally) returns (byId: Entries, tally: Tally)
    ensures
      var effect := Requesting(x.index, x.rules, x.stamp)(id, Get(m, id));
      byId == Put(m, id, After(effect)) && tally == Bump(t, effect)
  {
    byId, tally := m, t;
    assert Put(m, id, Get(m, id)) == m;
    if id !in x.index {
      return;
    }
    if id in x.rules.excluded {
      if id in byId {
        byId := byId - {id};
        tally := tally.(removed := tally.removed + 1, changes := tally.changes + 1);
      }
      return;
    }
    var verdict := Classify(x.index[id], x.rules);
    if verdict.None? {
      if id in byId && !byId[id].source.ManualKeep? {
        byId := byId - {id};
        tally := tally.(removed := tally.removed + 1, changes := tally.changes + 1);
      }
      return;
    }
    var v := verdict.value;
    var made := EntryFrom(x.index[id], v, x.rules.version, x.stamp);
    if id !in byId {
      byId := byId[id := made];
      tally := tally.(tagged := tally.tagged + 1, changes := tally.changes + 1);
    } else if byId[id].source != v.source || byId[id].terms != v.terms || byId[id].version != x.rules.version {
      byId := byId[id := made];
      tally := tally.(updated := tally.updated + 1, changes := tally.changes + 1);
    } else {
      tally := tally.(already := tally.already + 1);
    }
  }

  method ReviewAll(before: Entries, x: Inputs, t: Tally) returns (byId: Entries, tally: Tally)
    ensures byId == Phase(before, before.Keys, Reviewing(x.rules, x.stamp))
    ensures tally == Plus(t, before, before.Keys, Reviewing(x.rules, x.stamp))
  {
    byId, tally := before, t;
    ghost var f := Reviewing(x.rules, x.stamp);
    var todo := before.Keys;
    LoopStart(t, before, f, todo);
    while todo != {}
      invariant Looping(t, before, f, before.Keys, todo, byId, tally)
    {
      var id :| id in todo;
      LoopNext(t, before, f, before.Keys, todo, byId, tally, id);
      byId, tally := ReviewOne(byId, id, x, tally);
      todo := todo - {id};
    }
    LoopEnd(t, before, f, before.Keys, byId, tally);
  }

  method SeedAll(before: Entries, x: Inputs, t: Tally) returns (byId: Entries, tally: Tally)
    ensures byId == Phase(before, x.index.Keys, Seeding(x.index, x.rules, x.stamp))
    ensures tally == Plus(t, before, x.index.Keys, Seeding(x.index, x.rules, x.stamp))
  {
    byId, tally := before, t;
    ghost var f := Seeding(x.index, x.rules, x.stamp);
    var todo := x.index.Keys;
    LoopStart(t, before, f, todo);
    while todo != {}
      invariant Looping(t, before, f, x.index.Keys, todo, byId, tally)
    {
      var id :| id in todo;
      LoopNext(t, before, f, x.index.Keys, todo, byId, tally, id);
      byId, tally := SeedOne(byId, id, x, tally);
      todo := todo - {id};
    }
    LoopEnd(t, before, f, x.index.Keys, byId, tally);
  }

  method RequestAll(before: Entries, x: Inputs, t: Tally) returns (byId: Entries, tally: Tally)
    ensures byId == Phase(before, x.requested, Requesting(x.index, x.rules, x.stamp))
    ensures tally == Plus(t, before, x.requested, Requesting(x.index, x.rules, x.stamp))
  {
    byId, tally := before, t;
    ghost var f := Requesting(x.index, x.rules, x.stamp);
    var todo := x.requested;
    LoopStart(t, before, f, todo);
    while todo != {}
      invariant Looping(t, before, f, x.requested, todo, byId, tally)
    {
      var id :| id in todo;
      LoopNext(t, before, f, x.requested, todo, byId, tally, id);
      byId, tally := RequestOne(byId, id, x, tally);
      todo := todo - {id};
    }
    LoopEnd(t, before, f, x.requested, byId, tally);
  }

  // ---- what every entry keeps -----------------------------------------

  predicate Sound(id: string, e: Option<Entry>, rules: Rules) {
    e.Some? ==> id !in rules.excluded && e.value.version == rules.version && (e.value.source.ManualKeep? ==> id in rules.kept)
  }

  /** A requested row and its entry say the same. */
  predicate Agrees(id: string, e: Option<Entry>, index: Index, rules: Rules) {
    id in index && id !in rules.excluded ==>
      match Classify(index[id], rules)
      case None => e.None?
      case Some(v) => e.Some? && e.value.source == v.source && e.value.terms == v.terms
  }

  lemma ManualVerdictsAreKept(row: Row, rules: Rules)
    ensures Classify(row, rules).Some? && Classify(row, rules).value.source.ManualKeep? ==> row.id in rules.kept
    ensures row.id != "" && row.id in rules.kept ==> Classify(row, rules).Some?
  {
  }

  lemma ReviewMakesSound(id: string, e: Option<Entry>, rules: Rules, stamp: string)
    ensures Sound(id, After(Review(id, e, rules, stamp)), rules)
  {
    if e.Some? {
      ManualVerdictsAreKept(Snapshot(id, e.value), rules);
    }
  }

  lemma SeedKeepsSound(id: string, e: Option<Entry>, index: Index, rules: Rules, stamp: string)
    requires GoodIndex(index) && Sound(id, e, rules)
    ensures Sound(id, After(Seed(id, e, index, rules, stamp)), rules)
  {
    if id in index {
      ManualVerdictsAreKept(index[id], rules);
    }
  }

  lemma RequestSettles(id: string, e: Option<Entry>, index: Index, rules: Rules, stamp: string)
    requires GoodIndex(index) && Sound(id, e, rules)
    ensures Sound(id, After(Request(id, e, index, rules, stamp)), rules)
    ensures Agrees(id, After(Request(id, e, index, rules, stamp)), index, rules)
  {
    if id in index {
      ManualVerdictsAreKept(index[id], rules);
    }
  }

  /** Every loop: additions add, removals remove, and nothing else does either. */
  ghost predicate Honest(f: Act) {
    forall id, e ::
      match f(id, e)
      case Same(now) => now == e
      case Already(now) => now == e && e.Some?
      case Tagged(now) => e.None? && now.Some?
      case Updated(now) => e.Some? && now.Some?
      case Touched(now) => e.Some? && now.Some?
      case Removed => e.Some?
  }

  lemma LoopsAreHonest(x: Inputs)
    ensures Honest(Reviewing(x.rules, x.stamp)) && Honest(Seeding(x.index, x.rules, x.stamp))
    ensures Honest(Requesting(x.index, x.rules, x.stamp))
  {
  }

  lemma PutCounts(m: Entries, id: string, e: Option<Entry>)
    ensures |Put(m, id, e)| == |m| + (if e.Some? && id !in m then 1 else 0) - (if e.None? && id in m then 1 else 0)
  {
    var n := Put(m, id, e);
    assert n.Keys == if e.Some? then m.Keys + {id} else m.Keys - {id};
  }

  predicate CountsAddUp(m: Entries, ids: set<string>, f: Act) {
    |Phase(m, ids, f)| == |m| + Count(m, ids, f, IsTagged) - Count(m, ids, f, IsRemoved)
  }

  lemma OneMoreCounts(m: Entries, rest: set<string>, f: Act, id: string)
    requires Honest(f) && id !in rest && CountsAddUp(m, rest, f)
    ensures CountsAddUp(m, rest + {id}, f)
  {
    PhaseStep(m, rest, f, id);
    CountStep(m, rest, f, id, IsTagged);
    CountStep(m, rest, f, id, IsRemoved);
    PutCounts(Phase(m, rest, f), id, After(f(id, Get(m, id))));
  }

  lemma {:induction false} PhaseCounts(m: Entries, ids: set<string>, f: Act)
    requires Honest(f)
    ensures CountsAddUp(m, ids, f)
    decreases ids
  {
    if ids == {} {
      LoopStart(ZERO, m, f, {});
    } else {
      var id :| id in ids;
      PhaseCounts(m, ids - {id}, f);
      OneMoreCounts(m, ids - {id}, f, id);
      assert ids - {id} + {id} == ids;
    }
  }

  lemma QuietPhaseIsIdentity(m: Entries, ids: set<string>, f: Act)
    requires Honest(f) && Count(m, ids, f, IsChange) == 0
    ensures Phase(m, ids, f) == m
  {
    assert Where(m, ids, f, IsChange) == {};
    forall id ensures Get(Phase(m, ids, f), id) == Get(m, id) {
      assert id !in Where(m, ids, f, IsChange);
    }
    SameMaps(Phase(m, ids, f), m);
  }

  lemma MergedIsSound(file: Option<Payload>, x: Inputs, id: string)
    requires GoodIndex(x.index)
    ensures Sound(id, Get(Merged(file, x), id), x.rules)
    ensures id in x.requested ==> Agrees(id, Get(Merged(file, x), id), x.index, x.rules)
    ensures id in Merged(file, x) && Merged(file, x)[id].source.Rule? && id !in Before(file) ==> id in x.requested
  {
    ReviewMakesSound(id, Get(Before(file), id), x.rules, x.stamp);
    assert Sound(id, Get(Reviewed(file, x), id), x.rules);
    SeedKeepsSound(id, Get(Reviewed(file, x), id), x.index, x.rules, x.stamp);
    assert Sound(id, Get(Seeded(file, x), id), x.rules);
    RequestSettles(id, Get(Seeded(file, x), id), x.index, x.rules, x.stamp);
  }

  lemma FileHoldsTheMerge(file: Option<Payload>, x: Inputs)
    ensures Before(FileAfter(file, x)) == Merged(file, x)
  {
    if !Seeds(file) && TallyOf(file, x).changes == 0 {
      QuietUpdate(file, x);
    }
  }

  /** The entries after an update are as many as the counters say. */
  lemma CountersAddUp(file: Option<Payload>, x: Inputs)
    ensures |Before(FileAfter(file, x))| == |Before(file)| + TallyOf(file, x).tagged - TallyOf(file, x).removed
  {
    FileHoldsTheMerge(file, x);
    LoopsAreHonest(x);
    PhaseCounts(Before(file), Before(file).Keys, Reviewing(x.rules, x.stamp));
    PhaseCounts(Reviewed(file, x), SeedIds(file, x), Seeding(x.index, x.rules, x.stamp));
    PhaseCounts(Seeded(file, x), x.requested, Requesting(x.index, x.rules, x.stamp));
  }

  /** After any update: no excluded id, only kept ids by hand, the current rules
      version throughout, and rule entries only for ids there before or requested. */
  lemma UpdatedEntries(file: Option<Payload>, x: Inputs, id: string)
    requires GoodIndex(x.index)
    ensures
      var e := Get(Before(FileAfter(file, x)), id);
      e.Some? ==>
        && id !in x.rules.excluded && e.value.version == x.rules.version
        && (e.value.source.ManualKeep? ==> id in x.rules.kept)
        && (e.value.source.Rule? ==> id in Before(file) || id in x.requested)
  {
    FileHoldsTheMerge(file, x);
    MergedIsSound(file, x, id);
  }

  lemma QuietUpdate(file: Option<Payload>, x: Inputs)
    requires TallyOf(file, x).changes == 0
    ensures Merged(file, x) == Before(file)
  {
    LoopsAreHonest(x);
    QuietPhaseIsIdentity(Before(file), Before(file).Keys, Reviewing(x.rules, x.stamp));
    QuietPhaseIsIdentity(Reviewed(file, x), SeedIds(file, x), Seeding(x.index, x.rules, x.stamp));
    QuietPhaseIsIdentity(Seeded(file, x), x.requested, Requesting(x.index, x.rules, x.stamp));
  }

  // ---- the fixpoint ---------------------------------------------------

  ghost predicate Settled(file: Option<Payload>, x: Inputs) {
    && !Seeds(file)
    && (forall id :: Sound(id, Get(Before(file), id), x.rules))
    && (forall id | id in x.requested :: Agrees(id, Get(Before(file), id), x.index, x.rules))
  }

  lemma UpdateSettles(file: Option<Payload>, x: Inputs)
    requires GoodIndex(x.index)
    ensures Settled(FileAfter(file, x), x)
  {
    FileHoldsTheMerge(file, x);
    forall id
      ensures Sound(id, Get(Merged(file, x), id), x.rules) && (id in x.requested ==> Agrees(id, Get(Merged(file, x), id), x.index, x.rules))
    {
      MergedIsSound(file, x, id);
    }
  }

  lemma NoneWhere(m: Entries, ids: set<string>, f: Act, kind: Effect -> bool)
    requires forall id | id in ids :: !kind(f(id, Get(m, id)))
    ensures Count(m, ids, f, kind) == 0
  {
    assert Where(m, ids, f, kind) == {};
  }

  lemma SettledIsQuiet(file: Option<Payload>, x: Inputs)
    requires Settled(file, x)
    ensures TallyOf(file, x).changes == 0 && TallyOf(file, x).tagged == 0
    ensures TallyOf(file, x).updated == 0 && TallyOf(file, x).removed == 0
  {
    var f, g, h := Reviewing(x.rules, x.stamp), Seeding(x.index, x.rules, x.stamp), Requesting(x.index, x.rules, x.stamp);
    var m := Before(file);
    forall id | id in m.Keys ensures f(id, Get(m, id)) == Same(Get(m, id)) {
      assert Sound(id, Get(m, id), x.rules);
    }
    QuietKinds(m, m.Keys, f);
    LoopsAreHonest(x);
    QuietPhaseIsIdentity(m, m.Keys, f);
    LoopStart(ZERO, m, g, {});
    QuietKinds(m, {}, g);
    forall id | id in x.requested ensures !IsChange(h(id, Get(m, id))) {
      assert Sound(id, Get(m, id), x.rules) && Agrees(id, Get(m, id), x.index, x.rules);
    }
    QuietKinds(m, x.requested, h);
  }

  lemma QuietKinds(m: Entries, ids: set<string>, f: Act)
    requires forall id | id in ids :: !IsChange(f(id, Get(m, id)))
    ensures Count(m, ids, f, IsChange) == 0 && Count(m, ids, f, IsTagged) == 0
    ensures Count(m, ids, f, IsUpdated) == 0 && Count(m, ids, f, IsRemoved) == 0
  {
    NoneWhere(m, ids, f, IsChange);
    NoneWhere(m, ids, f, IsTagged);
    NoneWhere(m, ids, f, IsUpdated);
    NoneWhere(m, ids, f, IsRemoved);
  }

  /** An update leaves the file alone exactly when the file is settled. */
  lemma NothingToDoMeansSettled(file: Option<Payload>, x: Inputs)
    requires GoodIndex(x.index)
    ensures (!Seeds(file) && TallyOf(file, x).changes == 0) <==> Settled(file, x)
  {
    if !Seeds(file) && TallyOf(file, x).changes == 0 {
      UpdateSettles(file, x);
    }
    if Settled(file, x) {
      SettledIsQuiet(file, x);
    }
  }

  /** A second update with the same index, rules and ids, at any time, changes
      nothing and counts nothing. */
  lemma UpdatingTwiceIsUpdatingOnce(file: Option<Payload>, x: Inputs, later: string)
    requires GoodIndex(x.index)
    ensures
      var once := FileAfter(file, x);
      var again := x.(stamp := later);
      && FileAfter(once, again) == once
      && TallyOf(once, again).tagged == 0 && TallyOf(once, again).updated == 0 && TallyOf(once, again).removed == 0
  {
    UpdateSettles(file, x);
    SettledIsQuiet(FileAfter(file, x), x.(stamp := later));
  }

  // ---- snapshots ------------------------------------------------------

  /** What an entry remembers is judged as its row would be. */
  predicate Alike(row: Row, e: Entry, rules: Rules) {
    Classify(Snapshot(row.id, e), rules) == Classify(row, rules)
  }

  /** The row has companies enough to be left out, or its title was not cut and a
      row without a list of companies is not left out. */
  predicate Remembered(row: Row, companyMin: int) {
    || (row.companies.Some? && row.companies.value >= companyMin)
    || (companyMin >= 1 && |row.title| <= TITLE_MAX)
  }

  lemma RememberedRowsAreAlike(row: Row, v: Verdict, version: int, stamp: string, rules: Rules)
    requires Remembered(row, rules.companyMin)
    ensures Alike(row, EntryFrom(row, v, version, stamp), rules)
  {
  }

  /** The rules that take a row for its whole title and nothing else. */
  function TitleRules(row: Row, companyMin: int): Rules {
    Rules(1, map[], {}, {}, {row.column}, [], companyMin, s => s, [row.title])
  }

  lemma OneTermMatches(term: string, s: string)
    ensures Matched([term], s, s) == if Contains(s, term) then [term] else []
  {
    assert [term][..0] == [];
  }

  lemma ContainsItself(s: string)
    ensures Contains(s, s)
  {
    assert OccursAt(s, s, 0);
  }

  lemma TitleRulesTake(row: Row, companyMin: int)
    requires row.id != "" && (row.companies.Some? ==> row.companies.value < companyMin)
    ensures Classify(row, TitleRules(row, companyMin)).Some?
  {
    OneTermMatches(row.title, row.title);
    ContainsItself(row.title);
    assert !AnyIn([], row.title);
  }

  lemma TitleRulesLeaveOut(row: Row, companyMin: int, other: Row)
    requires other.companies.Some? && (other.companies.value >= companyMin || |other.title| < |row.title|)
    ensures Classify(other, TitleRules(row, companyMin)).None?
  {
    OneTermMatches(row.title, other.title);
  }

  /** Any other row has rules that take it and do not take what its entry
      remembers, so that they remove the entry. */
  lemma ForgottenRowIsRemoved(row: Row, v: Verdict, version: int, stamp: string, companyMin: int, later: string)
    requires row.id != "" && !Remembered(row, companyMin)
    ensures Classify(row, TitleRules(row, companyMin)).Some?
    ensures Classify(Snapshot(row.id, EntryFrom(row, v, version, stamp)), TitleRules(row, companyMin)).None?
    ensures !v.source.ManualKeep? && version != 1 ==>
              Review(row.id, Some(EntryFrom(row, v, version, stamp)), TitleRules(row, companyMin), later).Removed?
  {
    TitleRulesTake(row, companyMin);
    TitleRulesLeaveOut(row, companyMin, Snapshot(row.id, EntryFrom(row, v, version, stamp)));
  }

  /** A row is judged alike from what its entry remembers, whatever its verdict
      was and under all rules with the same company threshold, exactly when its
      companies reach the threshold, or its title fits and the threshold is at
      least one. */
  lemma SnapshotsClassifyAlike(row: Row, v: Verdict, version: int, stamp: string, companyMin: int)
    requires row.id != ""
    ensures (forall rules: Rules | rules.companyMin == companyMin :: Alike(row, EntryFrom(row, v, version, stamp), rules))
            <==> Remembered(row, companyMin)
  {
    var e := EntryFrom(row, v, version, stamp);
    if Remembered(row, companyMin) {
      forall rules: Rules | rules.companyMin == companyMin ensures Alike(row, e, rules) {
        RememberedRowsAreAlike(row, v, version, stamp, rules);
      }
    } else {
      ForgottenRowIsRemoved(row, v, version, stamp, companyMin, stamp);
      assert !Alike(row, e, TitleRules(row, companyMin));
    }
  }

  /** So a later rules version keeps the entry of a remembered row exactly when it
      would take the row itself, and then with the verdict of the row. */
  lemma LaterRulesJudgeTheRow(row: Row, v: Verdict, version: int, stamp: string, rules: Rules, later: string)
    requires Remembered(row, rules.companyMin) && row.id !in rules.excluded
    requires !v.source.ManualKeep? && version != rules.version
    ensures
      var e := EntryFrom(row, v, version, stamp);
      Review(row.id, Some(e), rules, later) ==
        match Classify(row, rules)
        case None => Removed
        case Some(w) =>
          Updated(Some(e.(source := w.source, reason := w.reason, terms := w.terms, version := rules.version, taggedAt := later)))
  {
    RememberedRowsAreAlike(row, v, version, stamp, rules);
  }

  const TERM := "M"

  function Padding(n: nat): string {
    seq(n, _ => '-')
  }

  lemma CutHasNoTerm()
    ensures Prefix(Padding(TITLE_MAX) + TERM, TITLE_MAX) == Padding(TITLE_MAX)
    ensures !Contains(Padding(TITLE_MAX), TERM) && Contains(Padding(TITLE_MAX) + TERM, TERM)
  {
    var cut := Padding(TITLE_MAX);
    forall i: nat | i <= |cut| ensures !OccursAt(cut, TERM, i) {
      assert i < |cut| ==> cut[i] == '-' && cut[i..i + 1] == [cut[i]];
    }
    assert OccursAt(cut + TERM, TERM, TITLE_MAX);
  }

  function LongRow(): Row {
    Row("a", Padding(TITLE_MAX) + TERM, "c", None, "", "")
  }

  function TermRules(): Rules {
    Rules(2, map[], {}, {}, {"c"}, [], 3, s => s, [TERM])
  }

  lemma LongRowIsTaken(cut: Row)
    requires cut == LongRow().(title := Padding(TITLE_MAX), companies := Some(0))
    ensures Classify(LongRow(), TermRules()) == Some(Verdict(Rule, None, [TERM])) && Classify(cut, TermRules()).None?
  {
    CutHasNoTerm();
    OneTermMatches(TERM, LongRow().title);
    OneTermMatches(TERM, cut.title);
    assert !AnyIn([], LongRow().title) && !AnyIn([], cut.title);
  }

  /** An example: a title one character too long loses the term it was tagged for,
      so that the next rules version removes the entry. */
  lemma CutTitleLosesItsTerm(stamp: string)
    ensures
      && Classify(LongRow(), TermRules()).Some?
      && Review("a", Some(EntryFrom(LongRow(), Classify(LongRow(), TermRules()).value, 1, stamp)), TermRules(), stamp) == Removed
  {
    CutHasNoTerm();
    LongRowIsTaken(LongRow().(title := Padding(TITLE_MAX), companies := Some(0)));
  }
}
