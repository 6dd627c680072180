/** What each operation on the tag sidecar comes to when no other process moves
    while it runs. */
module TagRuns {
  import opened Text
  import opened TagRows
  import opened TagLog
  import Framing

  function Go(s: State, p: Pid, act: Act): State {
    Step(s, Event(p, act))
  }

  /** The process rests and the lock is free, in a state that the runs keep. */
  ghost predicate AtRest(s: State, p: Pid) {
    Inv(s) && p in s.phases && s.phases[p] == Idle && s.lock == None
  }

  /** The process is at a phase, with nothing else changed. */
  ghost predicate Waiting(s: State, t: State, p: Pid, phase: Phase) {
    p in s.phases && t == s.(phases := s.phases[p := phase])
  }

  lemma LastMoveCounts(s: State, p: Pid, phase: Phase, now: Phase)
    ensures Move(Move(s, p, phase), p, now) == Move(s, p, now)
  {
    assert s.phases[p := phase][p := now] == s.phases[p := now];
  }

  // ---- single steps ---------------------------------------------------

  /** A crash ends what the process did and frees its lock; what it wrote stays. */
  lemma CrashesFreeTheLock(s: State, p: Pid)
    requires p in s.phases
    ensures Go(s, p, Crash) == s.(phases := s.phases[p := Idle], lock := if s.lock == Some(p) then None else s.lock)
  {
  }

  /** A compaction waits for the lock as long as it takes. */
  lemma CompactorsWait(s: State, p: Pid)
    requires p in s.phases && s.phases[p] == CompactWaiting
    ensures Go(s, p, LockCompact) == if s.lock.Some? then s else s.(lock := Some(p), phases := s.phases[p := CompactLocked])
  {
  }

  /** A row is not even checked when a text is missing or it is of another kind
      than asked for; only taggers tag by hand, and only rules tag by content. */
  lemma OddRowsAreRefused(s: State, p: Pid, row: TagRow, supersede: set<string>)
    requires p in s.phases
    ensures s.phases[p] != Idle || row.articleId == "" || row.tag == "" || row.action == Remove || row.dim != Content || row.ruleId == "" ==>
              Go(s, p, BeginContent(row, supersede)) == s
    ensures s.phases[p] != Idle || row.articleId == "" || row.tag == "" || row.action == Remove || row.dim != Manual || p !in s.taggers ==>
              Go(s, p, BeginManual(row)) == s
  {
  }

  // ---- which requests get through -------------------------------------

  /** A content row is written when its tag is not in force, or in force by a rule
      that is to be replaced. */
  lemma ContentIsAdmitted(s: State, p: Pid, row: TagRow, supersede: set<string>)
    requires AtRest(s, p) && Storable(row) && row.action.Add? && row.dim == Content && row.ruleId != ""
    ensures
      var active := Active(PathRows(s));
      var k := (row.articleId, row.tag);
      Waiting(s, Go(Go(s, p, BeginContent(row, supersede)), p, Admit), p,
              if k !in active || (active[k].dim == Content && active[k].ruleId in supersede) then Admitted(row, 0, None) else Idle)
  {
    var begun := Go(s, p, BeginContent(row, supersede));
    assert begun == Move(s, p, Validated(row, supersede)) && PathRows(begun) == PathRows(s);
    LastMoveCounts(s, p, Validated(row, supersede), Admitted(row, 0, None));
    LastMoveCounts(s, p, Validated(row, supersede), Idle);
  }

  /** A tagger's row is written when its tag is not in force, short, and not the
      eleventh by hand. */
  lemma ManualIsAdmitted(s: State, p: Pid, row: TagRow)
    requires AtRest(s, p) && p in s.taggers && Storable(row) && row.action.Add? && row.dim == Manual
    ensures
      var active := Active(PathRows(s));
      var k := (row.articleId, row.tag);
      var manual := set j | j in active && j.0 == row.articleId && active[j].dim == Manual :: j.1;
      Waiting(s, Go(Go(s, p, BeginManual(row)), p, Admit), p,
              if k !in active && |row.tag| <= 24 && |manual| < 10 then Admitted(row, 0, None) else Idle)
  {
    var active := Active(PathRows(s));
    assert ManualTagsOf(active, row.articleId) == set j | j in active && j.0 == row.articleId && active[j].dim == Manual :: j.1;
    assert s.phases[p := Idle] == s.phases;
    var begun := Go(s, p, BeginManual(row));
    if begun != s {
      assert begun == Move(s, p, Validated(row, {})) && PathRows(begun) == PathRows(s);
      LastMoveCounts(s, p, Validated(row, {}), Admitted(row, 0, None));
      LastMoveCounts(s, p, Validated(row, {}), Idle);
    }
  }

  /** A tombstone is written when its tag is in force, and takes its dimension. */
  lemma RemovalIsAdmitted(s: State, p: Pid, article: string, tag: string, source: string, at: string)
    requires AtRest(s, p)
    ensures
      var active := Active(PathRows(s));
      Waiting(s, Go(s, p, BeginRemove(article, tag, source, at)), p,
              if (article, tag) in active
              then Admitted(TagRow(article, tag, active[(article, tag)].dim, source, "", at, Remove, false), 0, None) else Idle)
  {
    assert s.phases[p := Idle] == s.phases;
  }

  // ---- an append that is admitted -------------------------------------

  /** The lock is taken at the first of three tries that finds it free. */
  lemma ThreeTriesAreMade(s: State, p: Pid, row: TagRow, tries: nat)
    requires p in s.phases && s.phases[p] == Admitted(row, tries, None)
    ensures
      var t := Go(s, p, TryLock);
      t == if s.lock == None then s.(lock := Some(p), phases := s.phases[p := Locked(row, None)])
           else s.(phases := s.phases[p := if tries < 2 then Admitted(row, tries + 1, None) else Idle])
  {
  }

  /** The process holds the lock and has the file at the path open; nobody has
      read or written anything meanwhile. */
  ghost predicate Opened(s: State, t: State, p: Pid, row: TagRow) {
    && p in s.phases && t.phases == s.phases[p := Locked(row, t.path)] && t.lock == Some(p)
    && t.path.Some? && t.path.value in t.files && Framing.Ended(t.files[t.path.value])
    && PathRows(t) == PathRows(s) && t.disk == s.disk && t.log == s.log && t.acks == s.acks
  }

  lemma LockAndOpen(s: State, p: Pid, row: TagRow)
    requires Inv(s) && s.lock == None && p in s.phases && s.phases[p] == Admitted(row, 0, None)
    ensures Opened(s, Go(Go(s, p, TryLock), p, Open), p, row)
  {
    ThreeTriesAreMade(s, p, row, 0);
    var locked := Go(s, p, TryLock);
    var t := Go(locked, p, Open);
    assert t == Move(OpenPath(locked).0, p, Locked(row, Some(OpenPath(locked).1)));
    assert s.phases[p := Locked(row, None)][p := Locked(row, t.path)] == s.phases[p := Locked(row, t.path)];
  }

  lemma WriteAndReturn(s: State, t: State, p: Pid, row: TagRow)
    requires Lawful(s.disk) && Storable(row) && Opened(s, t, p, row)
    ensures
      var done := Go(Go(t, p, Write), p, Return);
      && PathRows(done) == (if Plain(row) then PathRows(s) + [row] else PathRows(s))
      && done.acks == s.acks + [Ack(row, if Plain(row) then Some(|s.log|) else None)]
      && done.phases == s.phases[p := Idle] && done.lock == None && done.path == t.path
      && done.path.value in done.files && done.files[done.path.value] == t.files[t.path.value] + s.disk.line(row)
  {
    var i := t.path.value;
    WriteStep(t, p, row, i);
    var wrote := WriteRow(t, p, row, i);
    assert PathRows(wrote) == t.disk.read(t.files[i] + t.disk.line(row));
    ReturnStep(wrote, p, row, if Plain(row) then Some(|t.log|) else None);
    assert s.phases[p := Locked(row, t.path)][p := wrote.phases[p]][p := Idle] == s.phases[p := Idle];
  }

  /** An admitted row that nobody interrupts is appended and acknowledged, and the
      lock is free again; what is read afterwards ends in it when it is plain. */
  lemma AdmittedRowsAreWritten(s: State, p: Pid, row: TagRow)
    requires Inv(s) && s.lock == None && p in s.phases && s.phases[p] == Admitted(row, 0, None)
    ensures
      var done := Go(Go(Go(Go(s, p, TryLock), p, Open), p, Write), p, Return);
      && PathRows(done) == (if Plain(row) then PathRows(s) + [row] else PathRows(s))
      && done.acks == s.acks + [Ack(row, if Plain(row) then Some(|s.log|) else None)]
      && done.phases == s.phases[p := Idle] && done.lock == None
      && (s.path.Some? && s.path.value in s.files ==>
            done.path == s.path && s.path.value in done.files
            && done.files[s.path.value] == s.files[s.path.value] + s.disk.line(row))
  {
    assert HolderSound(s, s.phases[p]);
    LockAndOpen(s, p, row);
    WriteAndReturn(s, Go(Go(s, p, TryLock), p, Open), p, row);
  }

  // ---- a compaction ---------------------------------------------------

  function Compacted(s: State, p: Pid): State {
    Go(Go(Go(Go(Go(Go(s, p, BeginCompact), p, LockCompact), p, ReadCompact), p, WriteTemp), p, Replace), p, ReturnCompact)
  }

  lemma CompactionReads(s: State, p: Pid)
    requires AtRest(s, p)
    ensures Go(Go(Go(s, p, BeginCompact), p, LockCompact), p, ReadCompact)
            == s.(lock := Some(p), phases := s.phases[p := CompactRead(PathRows(s))])
  {
    var waiting := Go(s, p, BeginCompact);
    assert waiting == Move(s, p, CompactWaiting);
    var locked := Go(waiting, p, LockCompact);
    assert locked == s.(lock := Some(p), phases := s.phases[p := CompactLocked]) by {
      assert s.phases[p := CompactWaiting][p := CompactLocked] == s.phases[p := CompactLocked];
    }
    assert PathRows(locked) == PathRows(s);
    assert s.phases[p := CompactLocked][p := CompactRead(PathRows(s))] == s.phases[p := CompactRead(PathRows(s))];
  }

  lemma CompactionWrites(s: State, p: Pid, rows: seq<TagRow>)
    requires p in s.phases && s.phases[p] == CompactRead(rows) && s.lock == Some(p)
    ensures
      Go(Go(Go(s, p, WriteTemp), p, Replace), p, ReturnCompact) ==
        s.(lock := None, phases := s.phases[p := Idle], path := Some(s.next), files := s.files[s.next := Dump(s.disk, rows)], next := s.next + 1)
  {
    var written := Go(s, p, WriteTemp);
    assert written.phases == s.phases[p := CompactTemp(s.next)];
    var replaced := Go(written, p, Replace);
    assert replaced.phases == s.phases[p := CompactDone];
    assert s.phases[p := CompactDone][p := Idle] == s.phases[p := Idle];
  }

  /** A compaction that nobody interrupts leaves the rows it read, written out one
      after the other, and gives the lock back; read again, they are the plain ones
      of those before. */
  lemma CompactionsRewrite(s: State, p: Pid)
    requires AtRest(s, p)
    ensures
      var done := Compacted(s, p);
      && done.path.Some? && done.path.value in done.files && done.files[done.path.value] == Dump(s.disk, PathRows(s))
      && PathRows(done) == PlainRows(PathRows(s))
      && done.phases == s.phases && done.lock == None && done.acks == s.acks && done.log == s.log
  {
    CompactionReads(s, p);
    var read := s.(lock := Some(p), phases := s.phases[p := CompactRead(PathRows(s))]);
    CompactionWrites(read, p, PathRows(s));
    DumpReads(s.disk, PathRows(s));
    assert s.phases[p := CompactRead(PathRows(s))][p := Idle] == s.phases;
  }
}
