/** The cap on manual tags, over the runs of the tag sidecar log. */
module TagCaps {
  import opened Text
  import opened TagRows
  import opened TagLog
  import Framing

  /** A manual add that passed the count check and is not yet written. */
  predicate PendingFor(phase: Phase, article: string) {
    && (phase.Validated? || phase.Admitted? || phase.Locked?)
    && phase.row.action.Add? && phase.row.dim == Manual && phase.row.articleId == article
  }

  function PendingPids(s: State, article: string): set<Pid> {
    set p | p in s.phases && PendingFor(s.phases[p], article)
  }

  function PendingTags(s: State, article: string): set<string> {
    set p | p in PendingPids(s, article) :: s.phases[p].row.tag
  }

  function ManualNow(s: State, article: string): set<string> {
    ManualTagsOf(Active(s.log), article)
  }

  predicate Cap(s: State, article: string) {
    && PendingPids(s, article) <= s.taggers
    && |ManualNow(s, article) + PendingTags(s, article)| <= MANUAL_TAG_MAX - 1 + |s.taggers|
  }

  lemma SubsetSize<T>(a: set<T>, b: set<T>)
    requires a <= b
    ensures |a| <= |b|
  {
    assert b == a + (b - a);
  }

  function Image(pids: set<Pid>, tagOf: map<Pid, string>): set<string>
    requires pids <= tagOf.Keys
  {
    set p | p in pids :: tagOf[p]
  }

  lemma {:induction false} ImageSize(pids: set<Pid>, tagOf: map<Pid, string>)
    requires pids <= tagOf.Keys
    ensures |Image(pids, tagOf)| <= |pids|
  {
    if pids != {} {
      var q :| q in pids;
      ImageSize(pids - {q}, tagOf);
      assert Image(pids, tagOf) == Image(pids - {q}, tagOf) + {tagOf[q]};
    }
  }

  lemma PendingTagsCount(s: State, article: string)
    ensures |PendingTags(s, article)| <= |PendingPids(s, article)|
  {
    var pids := PendingPids(s, article);
    var tagOf := map p | p in pids :: s.phases[p].row.tag;
    ImageSize(pids, tagOf);
    assert forall p | p in pids :: tagOf[p] == s.phases[p].row.tag;
    assert PendingTags(s, article) == Image(pids, tagOf);
  }

  /** One more row never adds a manual tag except the one a manual add names. */
  lemma ManualAfterRow(log: seq<TagRow>, row: TagRow, article: string)
    ensures
      var now := ManualTagsOf(Active(log + [row]), article);
      var was := ManualTagsOf(Active(log), article);
      if row.action.Add? && row.dim == Manual && row.articleId == article
      then now == was + {row.tag} else now <= was
  {
    ActiveAppend(log, row);
    WinsKeyed(log);
    if row.action.Add? && row.dim == Manual && row.articleId == article {
      var active := Active(log);
      forall t | t in ManualTagsOf(active, article) + {row.tag}
        ensures t in ManualTagsOf(Active(log + [row]), article)
      {
        if t != row.tag {
          assert (article, t) in active && (article, t) in Active(log + [row]);
        } else {
          assert KeyOf(row) in Active(log + [row]);
        }
      }
    }
  }

  /** The manual tags together with the pending ones do not grow. */
  lemma CapKept(s: State, t: State, article: string)
    requires Cap(s, article) && t.taggers == s.taggers
    requires PendingPids(t, article) <= s.taggers
    requires ManualNow(t, article) + PendingTags(t, article) <= ManualNow(s, article) + PendingTags(s, article)
    ensures Cap(t, article)
  {
    SubsetSize(ManualNow(t, article) + PendingTags(t, article), ManualNow(s, article) + PendingTags(s, article));
  }

  lemma UnionSize<T>(a: set<T>, b: set<T>)
    ensures |a + b| <= |a| + |b|
  {
    assert a + b == a + (b - a);
    SubsetSize(b - a, b);
  }

  lemma OneMoreTag(existing: set<string>, pending: set<string>, tag: string, pids: set<Pid>, p: Pid, taggers: set<Pid>)
    requires |existing| <= 9 && |pending| <= |pids| && pids + {p} <= taggers && p !in pids
    ensures |existing + (pending + {tag})| <= 9 + |taggers|
  {
    SubsetSize(pids + {p}, taggers);
    UnionSize(pending, {tag});
    UnionSize(existing, pending + {tag});
  }

  /** Passing the count check: at most nine tags, the other pending adds, and this one. */
  lemma CheckedTagKeepsCap(s: State, t: State, p: Pid, row: TagRow, article: string)
    requires Cap(s, article) && t == Move(s, p, Validated(row, {}))
    requires p in s.phases && s.phases[p] == Idle && p in s.taggers
    requires row.action.Add? && row.dim == Manual && row.articleId == article
    requires row.tag in ManualNow(s, article) || |ManualNow(s, article)| <= 9
    ensures Cap(t, article)
  {
    assert PendingPids(t, article) == PendingPids(s, article) + {p};
    PendingTagsGain(s, t, p, article);
    if row.tag in ManualNow(s, article) {
      CapKept(s, t, article);
    } else {
      PendingTagsCount(s, article);
      OneMoreTag(ManualNow(s, article), PendingTags(s, article), row.tag, PendingPids(s, article), p, s.taggers);
    }
  }

  lemma ValidateKeepsCap(s: State, p: Pid, row: TagRow, article: string)
    requires Cap(s, article) && PathRows(s) == s.log
    requires p in s.phases && s.phases[p] == Idle && p in s.taggers
    requires row.action.Add? && row.dim == Manual
    ensures Cap(Validate(s, p, row), article)
  {
    var t := Validate(s, p, row);
    if t == s {
    } else if row.articleId != article {
      assert PendingPids(t, article) == PendingPids(s, article);
      CapKept(s, t, article);
    } else {
      CheckedTagKeepsCap(s, t, p, row, article);
    }
  }

  lemma PendingTagsGain(s: State, t: State, p: Pid, article: string)
    requires p in s.phases && s.phases[p] == Idle && p in t.phases && t.phases == s.phases[p := t.phases[p]]
    requires PendingFor(t.phases[p], article)
    ensures PendingTags(t, article) == PendingTags(s, article) + {t.phases[p].row.tag}
  {
    forall x | x in PendingTags(s, article) ensures x in PendingTags(t, article) {
      var q :| q in PendingPids(s, article) && s.phases[q].row.tag == x;
      assert q in PendingPids(t, article) && t.phases[q].row.tag == x;
    }
    assert p in PendingPids(t, article);
  }

  /** Only the process that moves changes its phase; the log grows by the row it wrote. */
  predicate Shape(s: State, t: State, p: Pid, article: string)
    requires p in s.phases
  {
    && t.taggers == s.taggers
    && p in t.phases && t.phases == s.phases[p := t.phases[p]]
    && (t.log == s.log || (s.phases[p].Locked? && t.log == s.log + [s.phases[p].row]))
    && (PendingFor(t.phases[p], article) ==> PendingFor(s.phases[p], article) && t.phases[p].row == s.phases[p].row)
  }

  lemma BeginShape(s: State, p: Pid, act: Act, article: string)
    requires p in s.phases && !act.BeginManual?
    ensures Shape(s, StepBegin(s, p, act), p, article)
  {
    assert s.phases == s.phases[p := s.phases[p]];
  }

  lemma AppendShape(s: State, p: Pid, act: Act, article: string)
    requires p in s.phases
    ensures Shape(s, StepAppend(s, p, act), p, article)
  {
    assert s.phases == s.phases[p := s.phases[p]];
    match (s.phases[p], act)
    case (Locked(row, fd), Open) => assert OpenPath(s).0.phases == s.phases;
    case (Admitted(row, _, fd), Open) => assert OpenPath(s).0.phases == s.phases;
    case _ =>
  }

  lemma CompactShape(s: State, p: Pid, act: Act, article: string)
    requires p in s.phases
    ensures Shape(s, StepCompact(s, p, act), p, article)
  {
    assert s.phases == s.phases[p := s.phases[p]];
  }

  lemma StepShape(s: State, e: Event, article: string)
    requires e.pid in s.phases && !e.act.BeginManual?
    ensures Shape(s, Step(s, e), e.pid, article)
  {
    BeginShape(s, e.pid, e.act, article);
    AppendShape(s, e.pid, e.act, article);
    CompactShape(s, e.pid, e.act, article);
  }

  /** Every step but the count check: only the tags in force or pending go on. */
  lemma OtherStepKeepsCap(s: State, t: State, p: Pid, article: string)
    requires Cap(s, article) && p in s.phases && Shape(s, t, p, article)
    ensures Cap(t, article)
  {
    assert PendingPids(t, article) <= PendingPids(s, article);
    forall x | x in ManualNow(t, article) + PendingTags(t, article)
      ensures x in ManualNow(s, article) + PendingTags(s, article)
    {
      StepAddsNoTag(s, t, p, article, x);
    }
    CapKept(s, t, article);
  }

  lemma BeginManualStep(s: State, p: Pid, row: TagRow)
    requires p in s.phases
    ensures
      var t := StepBegin(s, p, BeginManual(row));
      || t == s
      || (s.phases[p] == Idle && p in s.taggers && row.action.Add? && row.dim == Manual && t == Validate(s, p, row))
  {
  }

  lemma BeginManualKeepsCap(s: State, p: Pid, row: TagRow, article: string)
    requires Cap(s, article) && PathRows(s) == s.log && p in s.phases
    ensures Cap(StepBegin(s, p, BeginManual(row)), article)
  {
    BeginManualStep(s, p, row);
    if StepBegin(s, p, BeginManual(row)) != s {
      ValidateKeepsCap(s, p, row, article);
    }
  }

  lemma TaggersStay(s: State, e: Event)
    ensures Step(s, e).taggers == s.taggers
  {
  }

  lemma StepKeepsCap(s: State, e: Event, article: string)
    requires Cap(s, article) && PathRows(s) == s.log
    ensures Cap(Step(s, e), article) && Step(s, e).taggers == s.taggers
  {
    TaggersStay(s, e);
    if e.pid !in s.phases {
    } else if e.act.BeginManual? {
      BeginManualKeepsCap(s, e.pid, e.act.row, article);
    } else {
      StepShape(s, e, article);
      OtherStepKeepsCap(s, Step(s, e), e.pid, article);
    }
  }

  /** A tag in force or pending after the step was in force or pending before it. */
  lemma StepAddsNoTag(s: State, t: State, p: Pid, article: string, x: string)
    requires p in s.phases && p in t.phases && t.phases == s.phases[p := t.phases[p]]
    requires PendingFor(t.phases[p], article) ==> PendingFor(s.phases[p], article) && t.phases[p].row == s.phases[p].row
    requires t.log == s.log || (s.phases[p].Locked? && t.log == s.log + [s.phases[p].row])
    requires x in ManualNow(t, article) + PendingTags(t, article)
    ensures x in ManualNow(s, article) + PendingTags(s, article)
  {
    if x in PendingTags(t, article) {
      var q :| q in PendingPids(t, article) && t.phases[q].row.tag == x;
      assert q in PendingPids(s, article) && s.phases[q].row.tag == x;
    } else if t.log != s.log {
      ManualAfterRow(s.log, s.phases[p].row, article);
      if x !in ManualNow(s, article) {
        assert p in PendingPids(s, article);
      }
    }
  }

  /** A file of plain rows stays one. */
  lemma PlainFileIsTheLog(s: State, t: State)
    requires Keeps(s, t) && AllPlain(PathRows(s))
    ensures PathRows(t) == t.log
  {
    var rows := PathRows(t);
    forall i | 0 <= i < |rows| ensures Plain(rows[i]) {
      assert rows[i] in rows;
      if rows[i] in PathRows(s) {
        var j :| 0 <= j < |PathRows(s)| && PathRows(s)[j] == rows[i];
      }
    }
    PlainRowsKeepPlain(rows);
  }

  lemma {:induction false} RunKeepsCap(s: State, events: seq<Event>, article: string)
    requires Inv(s) && AllPlain(PathRows(s)) && Cap(s, article)
    ensures Cap(Run(s, events), article) && Run(s, events).taggers == s.taggers
  {
    if events != [] {
      var t := Run(s, events[..|events| - 1]);
      RunKeepsCap(s, events[..|events| - 1], article);
      RunKeepsInv(s, events[..|events| - 1]);
      PlainFileIsTheLog(s, t);
      StepKeepsCap(t, events[|events| - 1], article);
    }
  }

  /** With k taggers whose count check reads outside the lock, and any number of
      removers, content taggers and compactors, an article never has more than
      9 + k effective manual tags; one tagger keeps the documented ten.  Rows that
      hold separators in escaped form are excluded: a compaction loses such a
      tombstone, and the tag it removed comes back. */
  lemma ManualTagsAreCapped(s: State, events: seq<Event>, article: string)
    requires Start(s) && s.taggers != {} && AllPlain(PathRows(s))
    requires |ManualTagsOf(Active(PathRows(s)), article)| <= MANUAL_TAG_MAX - 1 + |s.taggers|
    ensures |ManualTagsOf(Active(PathRows(Run(s, events))), article)| <= MANUAL_TAG_MAX - 1 + |s.taggers|
    ensures |s.taggers| == 1 ==> |ManualTagsOf(Active(PathRows(Run(s, events))), article)| <= MANUAL_TAG_MAX
  {
    StartIsCapped(s, article);
    StartIsSound(s);
    RunKeepsCap(s, events, article);
    RunKeepsInv(s, events);
    var t := Run(s, events);
    PlainFileIsTheLog(s, t);
    SubsetSize(ManualNow(t, article), ManualNow(t, article) + PendingTags(t, article));
  }

  lemma StartIsCapped(s: State, article: string)
    requires Start(s) && AllPlain(PathRows(s))
    requires |ManualTagsOf(Active(PathRows(s)), article)| <= MANUAL_TAG_MAX - 1 + |s.taggers|
    ensures Cap(s, article)
  {
    PlainRowsKeepPlain(PathRows(s));
    assert PendingPids(s, article) == {};
    assert ManualNow(s, article) + PendingTags(s, article) == ManualNow(s, article);
  }

  /** The bound is met, whatever k is: from nine tags, k taggers that all check
      the count before any of them writes leave 9 + k. */
  lemma TaggersReachTheCap(s: State, pids: seq<Pid>, rows: seq<TagRow>, article: string) returns (events: seq<Event>)
    requires Start(s) && s.path.Some? && |pids| == |rows|
    requires forall i | 0 <= i < |pids| :: pids[i] in s.taggers && pids[i] in s.phases
    requires forall i, j | 0 <= i < j < |pids| :: pids[i] != pids[j] && rows[i].tag != rows[j].tag
    requires forall i | 0 <= i < |rows| :: Fresh(s, rows[i], article)
    requires |ManualTagsOf(Active(PathRows(s)), article)| == 9
    ensures |ManualTagsOf(Active(PathRows(Run(s, events))), article)| == 9 + |pids|
  {
    events := AllCheck(s, pids, rows, article, |pids|);
    assert rows[..|rows|] == rows;
    events := AllAppend(s, events, pids, rows, article, |pids|);
    ManualAfterRows(PathRows(s), rows, article, |rows|);
    assert rows[..|rows|] == rows;
  }

  /** A manual row that the checks let through while the article has nine tags. */
  predicate Fresh(s: State, row: TagRow, article: string) {
    && Storable(row) && Plain(row) && row.action.Add? && row.dim == Manual && row.articleId == article
    && |row.tag| <= MANUAL_TAG_CHARS && KeyOf(row) !in Active(PathRows(s))
  }

  /** The first `n` taggers have checked and none has written. */
  ghost predicate Checked(s: State, t: State, pids: seq<Pid>, rows: seq<TagRow>, n: nat)
    requires n <= |pids| == |rows|
  {
    && t == s.(phases := t.phases) && t.phases.Keys == s.phases.Keys
    && (forall i | 0 <= i < n :: pids[i] in t.phases && t.phases[pids[i]] == Admitted(rows[i], 0, None))
    && (forall p | p in s.phases && p !in pids[..n] :: t.phases[p] == s.phases[p])
  }

  lemma OneMoreChecked(s: State, t: State, pids: seq<Pid>, rows: seq<TagRow>, n: nat)
    requires n < |pids| == |rows| && Checked(s, t, pids, rows, n)
    requires pids[n] in s.phases && forall i | 0 <= i < n :: pids[i] != pids[n]
    ensures Checked(s, Move(t, pids[n], Admitted(rows[n], 0, None)), pids, rows, n + 1)
  {
    assert pids[..n + 1] == pids[..n] + [pids[n]];
  }

  lemma {:induction false} AllCheck(s: State, pids: seq<Pid>, rows: seq<TagRow>, article: string, n: nat) returns (events: seq<Event>)
    requires Start(s) && n <= |pids| == |rows|
    requires forall i | 0 <= i < |pids| :: pids[i] in s.taggers && pids[i] in s.phases
    requires forall i, j | 0 <= i < j < |pids| :: pids[i] != pids[j]
    requires forall i | 0 <= i < |rows| :: Fresh(s, rows[i], article)
    requires |ManualTagsOf(Active(PathRows(s)), article)| == 9
    ensures Checked(s, Run(s, events), pids, rows, n)
  {
    events := [];
    if n > 0 {
      events := AllCheck(s, pids, rows, article, n - 1);
      var t := Run(s, events);
      assert pids[n - 1] !in pids[..n - 1] && Fresh(s, rows[n - 1], article);
      assert PathRows(t) == PathRows(s);
      events := CheckRun(s, events, t, pids[n - 1], rows[n - 1]);
      OneMoreChecked(s, t, pids, rows, n - 1);
    }
  }

  lemma CheckRun(s: State, events: seq<Event>, t: State, p: Pid, row: TagRow) returns (longer: seq<Event>)
    requires Run(s, events) == t
    requires p in t.phases && t.phases[p] == Idle && p in t.taggers
    requires Fresh(t, row, row.articleId)
    requires |ManualTagsOf(Active(PathRows(t)), row.articleId)| == 9
    ensures Run(s, longer) == Move(t, p, Admitted(row, 0, None))
  {
    longer := Then(s, events, t, Event(p, BeginManual(row)));
    longer := Then(s, longer, Move(t, p, Validated(row, {})), Event(p, Admit));
    assert t.phases[p := Validated(row, {})][p := Admitted(row, 0, None)] == t.phases[p := Admitted(row, 0, None)];
  }

  /** The first `n` rows are in the file and the other taggers still wait. */
  ghost predicate Appended(s: State, t: State, pids: seq<Pid>, rows: seq<TagRow>, n: nat)
    requires n <= |pids| == |rows|
  {
    && PathRows(t) == PathRows(s) + rows[..n] && t.disk == s.disk && t.lock == None && !t.openEarly
    && t.path.Some? && t.path.value in t.files && Framing.Ended(t.files[t.path.value])
    && (forall i | n <= i < |pids| :: pids[i] in t.phases && t.phases[pids[i]] == Admitted(rows[i], 0, None))
  }

  lemma StartAppending(s: State, t: State, pids: seq<Pid>, rows: seq<TagRow>)
    requires Start(s) && s.path.Some? && |pids| == |rows| && Checked(s, t, pids, rows, |pids|)
    ensures Appended(s, t, pids, rows, 0)
  {
    assert PathRows(s) + rows[..0] == PathRows(s);
  }

  /** What one tagger's append leaves to the others. */
  lemma OneMoreAppended(s: State, t: State, u: State, pids: seq<Pid>, rows: seq<TagRow>, n: nat)
    requires n < |pids| == |rows| && Appended(s, t, pids, rows, n)
    requires forall i | n < i < |pids| :: pids[i] != pids[n]
    requires PathRows(u) == PathRows(t) + [rows[n]] && u.phases == t.phases[pids[n] := Idle]
    requires u.lock == None && !u.openEarly && u.disk == t.disk
    requires u.path.Some? && u.path.value in u.files && Framing.Ended(u.files[u.path.value])
    ensures Appended(s, u, pids, rows, n + 1)
  {
    assert PathRows(s) + rows[..n] + [rows[n]] == PathRows(s) + rows[..n + 1];
  }

  lemma {:induction false} AllAppend(s: State, checked: seq<Event>, pids: seq<Pid>, rows: seq<TagRow>, article: string, n: nat)
    returns (events: seq<Event>)
    requires Start(s) && s.path.Some? && n <= |pids| == |rows|
    requires Checked(s, Run(s, checked), pids, rows, |pids|)
    requires forall i, j | 0 <= i < j < |pids| :: pids[i] != pids[j]
    requires forall i | 0 <= i < |rows| :: Fresh(s, rows[i], article)
    ensures Appended(s, Run(s, events), pids, rows, n)
  {
    if n == 0 {
      events := checked;
      StartAppending(s, Run(s, events), pids, rows);
    } else {
      events := AllAppend(s, checked, pids, rows, article, n - 1);
      var t := Run(s, events);
      var u;
      assert Fresh(s, rows[n - 1], article);
      u, events := AppendRun(s, events, t, pids[n - 1], rows[n - 1]);
      OneMoreAppended(s, t, u, pids, rows, n - 1);
    }
  }

  lemma AppendRun(s: State, events: seq<Event>, t: State, p: Pid, row: TagRow) returns (u: State, longer: seq<Event>)
    requires Run(s, events) == t && Lawful(t.disk) && Storable(row) && Plain(row)
    requires p in t.phases && t.phases[p] == Admitted(row, 0, None) && t.lock == None && !t.openEarly
    requires t.path.Some? && t.path.value in t.files && Framing.Ended(t.files[t.path.value])
    ensures Run(s, longer) == u && PathRows(u) == PathRows(t) + [row]
    ensures u.phases == t.phases[p := Idle] && u.lock == None && !u.openEarly && u.disk == t.disk
    ensures u.path == t.path && u.path.value in u.files && Framing.Ended(u.files[u.path.value])
  {
    longer := Then(s, events, t, Event(p, TryLock));
    var locked := Move(t.(lock := Some(p)), p, Locked(row, None));
    longer := Then(s, longer, locked, Event(p, Open));
    var ready := Move(locked, p, Locked(row, t.path));
    u, longer := WriteReturnRun(s, longer, ready, p, row);
  }

  lemma WriteReturnRun(s: State, events: seq<Event>, t: State, p: Pid, row: TagRow) returns (u: State, longer: seq<Event>)
    requires Run(s, events) == t && Lawful(t.disk) && Storable(row) && Plain(row)
    requires p in t.phases && t.path.Some? && t.path.value in t.files && Framing.Ended(t.files[t.path.value])
    requires t.phases[p] == Locked(row, t.path) && t.lock == Some(p)
    ensures Run(s, longer) == u && PathRows(u) == PathRows(t) + [row]
    ensures u.phases == t.phases[p := Idle] && u.lock == None && u.openEarly == t.openEarly && u.disk == t.disk
    ensures u.path == t.path && u.path.value in u.files && Framing.Ended(u.files[u.path.value])
  {
    var wrote := WriteRow(t, p, row, t.path.value);
    longer := Then(s, events, t, Event(p, Write));
    WriteStep(t, p, row, t.path.value);
    longer := Then(s, longer, wrote, Event(p, Return));
    u := Release(wrote, p).(acks := wrote.acks + [Ack(row, Some(|t.log|))]);
    ReturnStep(wrote, p, row, Some(|t.log|));
    WrittenRowIsRead(t, p, row, wrote);
    assert u.phases == t.phases[p := Idle];
  }

  lemma WrittenRowIsRead(t: State, p: Pid, row: TagRow, wrote: State)
    requires Lawful(t.disk) && Storable(row) && Plain(row)
    requires t.path.Some? && t.path.value in t.files && Framing.Ended(t.files[t.path.value])
    requires wrote == WriteRow(t, p, row, t.path.value)
    ensures PathRows(wrote) == PathRows(t) + [row]
    ensures wrote.path == t.path && t.path.value in wrote.files && Framing.Ended(wrote.files[t.path.value])
  {
    assert wrote.files[t.path.value] == t.files[t.path.value] + t.disk.line(row);
  }

  /** New manual rows of one article add one tag each. */
  lemma {:induction false} ManualAfterRows(log: seq<TagRow>, rows: seq<TagRow>, article: string, n: nat)
    requires n <= |rows|
    requires forall i | 0 <= i < |rows| :: rows[i].action.Add? && rows[i].dim == Manual && rows[i].articleId == article
    requires forall i | 0 <= i < |rows| :: rows[i].tag !in ManualTagsOf(Active(log), article)
    requires forall i, j | 0 <= i < j < |rows| :: rows[i].tag != rows[j].tag
    ensures |ManualTagsOf(Active(log + rows[..n]), article)| == |ManualTagsOf(Active(log), article)| + n
    ensures forall i | n <= i < |rows| :: rows[i].tag !in ManualTagsOf(Active(log + rows[..n]), article)
  {
    if n == 0 {
      assert log + rows[..0] == log;
    } else {
      ManualAfterRows(log, rows, article, n - 1);
      assert log + rows[..n] == log + rows[..n - 1] + [rows[n - 1]];
      ManualAfterRow(log + rows[..n - 1], rows[n - 1], article);
    }
  }
}
