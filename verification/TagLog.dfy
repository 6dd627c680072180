/** The tag sidecar log under concurrency.

    Appenders and compactors are processes that take one small step at a time:
    admission reads happen outside the lock, an append opens the path only after
    it holds the directory lock, and a compaction reads, writes a temporary
    inode and renames it over the path inside the lock.  A step that is not
    enabled leaves the state alone, so a run is any sequence of events. */
module TagLog {
  import opened Text
  import opened TagRows
  import Framing

  const LOCK_TRIES := 3

  type Pid = nat
  type Inode = nat

  datatype Phase =
    | Idle
    | Validated(row: TagRow, supersede: set<string>)
    | Admitted(row: TagRow, tries: nat, fd: Option<Inode>)
    | Locked(row: TagRow, fd: Option<Inode>)
    | Wrote(row: TagRow, at: Option<nat>)
    | CompactWaiting
    | CompactLocked
    | CompactRead(rows: seq<TagRow>)
    | CompactTemp(inode: Inode)
    | CompactDone

  /** An append that returned "added": the row, and its place among the rows that
      read back, none when it is not one of them. */
  datatype Ack = Ack(row: TagRow, at: Option<nat>)

  /** `openEarly` is the discipline the source does not follow: opening the path
      before taking the lock.  `log` is the history of the plain rows: those there
      at first, and those that were written and read back. */
  datatype State = State(
    disk: Disk,
    openEarly: bool,
    path: Option<Inode>,
    files: map<Inode, string>,
    next: Inode,
    lock: Option<Pid>,
    phases: map<Pid, Phase>,
    taggers: set<Pid>,
    log: seq<TagRow>,
    acks: seq<Ack>)

  datatype Act =
    | BeginManual(row: TagRow)
    | BeginContent(row: TagRow, supersede: set<string>)
    | BeginRemove(article: string, tag: string, source: string, taggedAt: string)
    | Admit
    | TryLock
    | Open
    | Write
    | Return
    | BeginCompact
    | LockCompact
    | ReadCompact
    | WriteTemp
    | Replace
    | ReturnCompact
    | Crash

  datatype Event = Event(pid: Pid, act: Act)

  /** What a reader of the path sees now. */
  function PathRows(s: State): seq<TagRow> {
    if s.path.Some? && s.path.value in s.files then s.disk.read(s.files[s.path.value]) else []
  }

  function Move(s: State, p: Pid, phase: Phase): State {
    s.(phases := s.phases[p := phase])
  }

  function Release(s: State, p: Pid): State {
    Move(s, p, Idle).(lock := if s.lock == Some(p) then None else s.lock)
  }

  /** The manual-tag check, on an unlocked read. */
  function Validate(s: State, p: Pid, row: TagRow): State {
    if ManualRefused(Active(PathRows(s)), row.articleId, row.tag) then s else Move(s, p, Validated(row, {}))
  }

  /** The effective-set check, on a second unlocked read. */
  function AdmitAdd(s: State, p: Pid, row: TagRow, supersede: set<string>): State {
    var active := Active(PathRows(s));
    if || KeyOf(row) !in active
       || (row.dim == Content && active[KeyOf(row)].dim == Content && active[KeyOf(row)].ruleId in supersede)
    then Move(s, p, Admitted(row, 0, None))
    else Move(s, p, Idle)
  }

  function AdmitRemove(s: State, p: Pid, article: string, tag: string, source: string, at: string): State {
    var active := Active(PathRows(s));
    if (article, tag) !in active then s
    else Move(s, p, Admitted(TagRow(article, tag, active[(article, tag)].dim, source, "", at, Remove, false), 0, None))
  }

  /** `open(O_CREAT | O_APPEND)`: the inode now at the path, or a new empty one. */
  function OpenPath(s: State): (State, Inode) {
    if s.path.Some? then (s, s.path.value)
    else (s.(path := Some(s.next), files := s.files[s.next := ""], next := s.next + 1), s.next)
  }

  function WriteRow(s: State, p: Pid, row: TagRow, i: Inode): State {
    if i !in s.files then s
    else
      Move(s.(files := s.files[i := s.files[i] + s.disk.line(row)], log := ReadAfter(s.log, row)),
           p, Wrote(row, if Plain(row) then Some(|s.log|) else None))
  }

  function StepBegin(s: State, p: Pid, act: Act): State
    requires p in s.phases
  {
    if s.phases[p] != Idle then s
    else
      match act
      case BeginManual(row) =>
        if p in s.taggers && Storable(row) && row.action.Add? && row.dim == Manual then Validate(s, p, row) else s
      case BeginContent(row, supersede) =>
        if Storable(row) && row.action.Add? && row.dim == Content && row.ruleId != "" then Move(s, p, Validated(row, supersede)) else s
      case BeginRemove(article, tag, source, at) => AdmitRemove(s, p, article, tag, source, at)
      case BeginCompact => Move(s, p, CompactWaiting)
      case _ => s
    }

  function StepAppend(s: State, p: Pid, act: Act): State
    requires p in s.phases
  {
    match (s.phases[p], act)
    case (Validated(row, supersede), Admit) => AdmitAdd(s, p, row, supersede)
    case (Admitted(row, tries, fd), TryLock) =>
      if s.lock == None then Move(s.(lock := Some(p)), p, Locked(row, fd))
      else if tries + 1 >= LOCK_TRIES then Move(s, p, Idle)
      else Move(s, p, Admitted(row, tries + 1, fd))
    case (Admitted(row, tries, fd), Open) =>
      if !s.openEarly || fd.Some? then s
      else var (t, i) := OpenPath(s); Move(t, p, Admitted(row, tries, Some(i)))
    case (Locked(row, fd), Open) =>
      if fd.Some? then s
      else var (t, i) := OpenPath(s); Move(t, p, Locked(row, Some(i)))
    case (Locked(row, fd), Write) =>
      if fd.None? then s else WriteRow(s, p, row, fd.value)
    case (Wrote(row, at), Return) =>
      Release(s, p).(acks := s.acks + [Ack(row, at)])
    case _ => s
  }

  function StepCompact(s: State, p: Pid, act: Act): State
    requires p in s.phases
  {
    match (s.phases[p], act)
    case (CompactWaiting, LockCompact) =>
      if s.lock == None then Move(s.(lock := Some(p)), p, CompactLocked) else s
    case (CompactLocked, ReadCompact) => Move(s, p, CompactRead(PathRows(s)))
    case (CompactRead(rows), WriteTemp) =>
      Move(s.(files := s.files[s.next := Dump(s.disk, rows)], next := s.next + 1), p, CompactTemp(s.next))
    case (CompactTemp(i), Replace) => Move(s.(path := Some(i)), p, CompactDone)
    case (CompactDone, ReturnCompact) => Release(s, p)
    case _ => s
  }

  function Step(s: State, e: Event): State {
    if e.pid !in s.phases then s
    else
      match e.act
      case Crash => Release(s, e.pid)
      case BeginManual(_) => StepBegin(s, e.pid, e.act)
      case BeginContent(_, _) => StepBegin(s, e.pid, e.act)
      case BeginRemove(_, _, _, _) => StepBegin(s, e.pid, e.act)
      case BeginCompact => StepBegin(s, e.pid, e.act)
      case LockCompact => StepCompact(s, e.pid, e.act)
      case ReadCompact => StepCompact(s, e.pid, e.act)
      case WriteTemp => StepCompact(s, e.pid, e.act)
      case Replace => StepCompact(s, e.pid, e.act)
      case ReturnCompact => StepCompact(s, e.pid, e.act)
      case _ => StepAppend(s, e.pid, e.act)
  }

  function Run(s: State, events: seq<Event>): State {
    if events == [] then s else Step(Run(s, events[..|events| - 1]), events[|events| - 1])
  }

  // ---- no acknowledged row is ever lost -------------------------------

  predicate Holding(phase: Phase) {
    phase.Locked? || phase.Wrote? || phase.CompactLocked? || phase.CompactRead? || phase.CompactTemp? || phase.CompactDone?
  }

  predicate AcksSound(log: seq<TagRow>, acks: seq<Ack>) {
    && (forall k | 0 <= k < |acks| :: acks[k].at.Some? <==> Plain(acks[k].row))
    && (forall k | 0 <= k < |acks| && acks[k].at.Some? :: acks[k].at.value < |log| && log[acks[k].at.value] == acks[k].row)
    && (forall j, k | 0 <= j < k < |acks| && acks[j].at.Some? && acks[k].at.Some? :: acks[j].at.value < acks[k].at.value)
  }

  /** A written row that reads back is the latest of its kind. */
  predicate WroteSound(log: seq<TagRow>, acks: seq<Ack>, row: TagRow, at: Option<nat>) {
    && (at.Some? <==> Plain(row))
    && (at.Some? ==> at.value < |log| && log[at.value] == row
                     && forall k | 0 <= k < |acks| && acks[k].at.Some? :: acks[k].at.value < at.value)
  }

  /** What a process's private data says about the shared log. */
  ghost predicate HolderSound(s: State, phase: Phase) {
    match phase
    case Validated(row, _) => Storable(row)
    case Admitted(row, _, fd) => Storable(row) && fd.None?
    case Locked(row, fd) => Storable(row) && (fd.None? || fd == s.path)
    case Wrote(row, at) => WroteSound(s.log, s.acks, row, at)
    case CompactRead(rows) => rows == PathRows(s)
    case CompactTemp(i) => i in s.files && Framing.Ended(s.files[i]) && s.disk.read(s.files[i]) == s.log
    case _ => true
  }

  ghost predicate Inv(s: State) {
    && !s.openEarly && Lawful(s.disk)
    && (forall i | i in s.files :: i < s.next)
    && (s.path.Some? ==> s.path.value in s.files && Framing.Ended(s.files[s.path.value]))
    && PlainRows(PathRows(s)) == s.log && AllStorable(PathRows(s))
    && (s.lock.Some? ==> s.lock.value in s.phases)
    && (forall p | p in s.phases :: Holding(s.phases[p]) <==> s.lock == Some(p))
    && (forall p | p in s.phases :: HolderSound(s, s.phases[p]))
    && AcksSound(s.log, s.acks)
  }

  /** Nobody is at work and nothing has been acknowledged yet; the file may hold
      torn lines and rows that were written otherwise, but ends in a line break. */
  ghost predicate Start(s: State) {
    && !s.openEarly && Lawful(s.disk)
    && (forall i | i in s.files :: i < s.next)
    && (s.path.Some? ==> s.path.value in s.files && Framing.Ended(s.files[s.path.value]))
    && s.log == PlainRows(PathRows(s))
    && s.lock == None
    && (forall p | p in s.phases :: s.phases[p] == Idle)
    && s.acks == []
  }

  /** No row comes into the file but plain ones. */
  ghost predicate OnlyPlainNew(s: State, t: State) {
    forall row | row in PathRows(t) :: row in PathRows(s) || Plain(row)
  }

  /** The invariant holds after a step, and nothing written or acknowledged is gone. */
  ghost predicate Keeps(s: State, t: State) {
    Inv(t) && s.log <= t.log && s.acks <= t.acks && OnlyPlainNew(s, t)
  }

  lemma StartIsSound(s: State)
    requires Start(s)
    ensures Inv(s)
  {
    if s.path.Some? {
      var text := s.files[s.path.value];
      assert forall i | 0 <= i < |s.disk.read(text)| :: Storable(s.disk.read(text)[i]);
    }
  }

  /** A private move that neither takes nor gives up the lock. */
  lemma MoveKeepsInv(s: State, p: Pid, phase: Phase)
    requires Inv(s) && p in s.phases && HolderSound(s, phase)
    requires Holding(phase) == Holding(s.phases[p])
    ensures Keeps(s, Move(s, p, phase))
  {
  }

  lemma TakeLockKeepsInv(s: State, p: Pid, phase: Phase)
    requires Inv(s) && p in s.phases && s.lock == None
    requires Holding(phase) && HolderSound(s, phase)
    ensures Keeps(s, Move(s.(lock := Some(p)), p, phase))
  {
  }

  lemma ReleaseKeepsInv(s: State, p: Pid)
    requires Inv(s) && p in s.phases
    ensures Keeps(s, Release(s, p))
  {
  }

  lemma StepBeginKeepsInv(s: State, p: Pid, act: Act)
    requires Inv(s) && p in s.phases
    ensures Keeps(s, StepBegin(s, p, act))
  {
    var t := StepBegin(s, p, act);
    if act.BeginRemove? && (act.article, act.tag) in Active(PathRows(s)) {
      WinnerIsStorable(PathRows(s), (act.article, act.tag));
    }
    if t != s {
      MoveKeepsInv(s, p, t.phases[p]);
    }
  }

  lemma OpenKeepsInv(s: State, p: Pid, row: TagRow)
    requires Inv(s) && p in s.phases && s.phases[p] == Locked(row, None)
    ensures Keeps(s, StepAppend(s, p, Open))
  {
    assert HolderSound(s, s.phases[p]);
    var t := OpenPath(s).0;
    assert forall q | q in s.phases && q != p :: !Holding(s.phases[q]);
    assert PathRows(t) == PathRows(s);
    forall q | q in s.phases ensures HolderSound(t, s.phases[q]) {
      assert HolderSound(s, s.phases[q]);
    }
    MoveKeepsInv(t, p, Locked(row, Some(OpenPath(s).1)));
  }

  lemma WriteKeepsInv(s: State, p: Pid, row: TagRow)
    requires Inv(s) && p in s.phases && s.phases[p].Locked? && s.phases[p].row == row && s.phases[p].fd.Some?
    ensures Keeps(s, WriteRow(s, p, row, s.phases[p].fd.value))
  {
    var i := s.phases[p].fd.value;
    assert HolderSound(s, s.phases[p]);
    var t := WriteRow(s, p, row, i);
    assert s.disk.read(s.files[i] + s.disk.line(row)) == ReadAfter(PathRows(s), row);
    PlainRowsAppend(PathRows(s), row);
    assert forall k | 0 <= k < |s.acks| && s.acks[k].at.Some? :: s.acks[k].at.value < |s.log|;
    assert forall q | q in s.phases && q != p :: !Holding(s.phases[q]) && HolderSound(s, s.phases[q]);
  }

  lemma AckKeepsInv(s: State, row: TagRow, at: Option<nat>)
    requires Inv(s) && WroteSound(s.log, s.acks, row, at) && forall q | q in s.phases :: !Holding(s.phases[q])
    ensures Keeps(s, s.(acks := s.acks + [Ack(row, at)]))
  {
    var t := s.(acks := s.acks + [Ack(row, at)]);
    assert forall q | q in t.phases :: HolderSound(s, s.phases[q]) && HolderSound(t, t.phases[q]);
  }

  lemma ReturnKeepsInv(s: State, p: Pid, row: TagRow, at: Option<nat>)
    requires Inv(s) && p in s.phases && s.phases[p] == Wrote(row, at)
    ensures Keeps(s, Release(s, p).(acks := s.acks + [Ack(row, at)]))
  {
    assert HolderSound(s, s.phases[p]);
    ReleaseKeepsInv(s, p);
    AckKeepsInv(Release(s, p), row, at);
  }

  lemma AdmitMoves(s: State, p: Pid, row: TagRow, supersede: set<string>) returns (phase: Phase)
    ensures AdmitAdd(s, p, row, supersede) == Move(s, p, phase) && (phase == Idle || phase == Admitted(row, 0, None))
  {
    phase := AdmitAdd(s, p, row, supersede).phases[p];
  }

  lemma ValidatedKeeps(s: State, p: Pid, act: Act)
    requires Inv(s) && p in s.phases && s.phases[p].Validated?
    ensures Keeps(s, StepAppend(s, p, act))
  {
    assert HolderSound(s, s.phases[p]);
    if act.Admit? {
      var phase := AdmitMoves(s, p, s.phases[p].row, s.phases[p].supersede);
      MoveKeepsInv(s, p, phase);
    }
  }

  lemma AdmittedKeeps(s: State, p: Pid, act: Act)
    requires Inv(s) && p in s.phases && s.phases[p].Admitted?
    ensures Keeps(s, StepAppend(s, p, act))
  {
    assert HolderSound(s, s.phases[p]);
    if act.TryLock? {
      if s.lock == None {
        TakeLockKeepsInv(s, p, Locked(s.phases[p].row, s.phases[p].fd));
      } else {
        MoveKeepsInv(s, p, StepAppend(s, p, act).phases[p]);
      }
    }
  }

  lemma LockedStays(s: State, p: Pid, act: Act)
    requires p in s.phases && s.phases[p].Locked?
    requires !(act.Open? && s.phases[p].fd.None?) && !(act.Write? && s.phases[p].fd.Some?)
    ensures StepAppend(s, p, act) == s
  {
  }

  lemma LockedKeeps(s: State, p: Pid, act: Act)
    requires Inv(s) && p in s.phases && s.phases[p].Locked?
    ensures Keeps(s, StepAppend(s, p, act))
  {
    if act.Open? && s.phases[p].fd.None? {
      OpenKeepsInv(s, p, s.phases[p].row);
    } else if act.Write? && s.phases[p].fd.Some? {
      WriteKeepsInv(s, p, s.phases[p].row);
    } else {
      LockedStays(s, p, act);
    }
  }

  lemma WroteKeeps(s: State, p: Pid, act: Act)
    requires Inv(s) && p in s.phases && s.phases[p].Wrote?
    ensures Keeps(s, StepAppend(s, p, act))
  {
    if act.Return? {
      ReturnKeepsInv(s, p, s.phases[p].row, s.phases[p].at);
    }
  }

  lemma OthersDoNotAppend(s: State, p: Pid, act: Act)
    requires p in s.phases
    requires !(s.phases[p].Validated? || s.phases[p].Admitted? || s.phases[p].Locked? || s.phases[p].Wrote?)
    ensures StepAppend(s, p, act) == s
  {
  }

  lemma StepAppendKeepsInv(s: State, p: Pid, act: Act)
    requires Inv(s) && p in s.phases
    ensures Keeps(s, StepAppend(s, p, act))
  {
    if s.phases[p].Validated? {
      ValidatedKeeps(s, p, act);
    } else if s.phases[p].Admitted? {
      AdmittedKeeps(s, p, act);
    } else if s.phases[p].Locked? {
      LockedKeeps(s, p, act);
    } else if s.phases[p].Wrote? {
      WroteKeeps(s, p, act);
    } else {
      OthersDoNotAppend(s, p, act);
    }
  }

  lemma WriteTempKeepsInv(s: State, p: Pid)
    requires Inv(s) && p in s.phases && s.phases[p].CompactRead?
    ensures Inv(StepCompact(s, p, WriteTemp))
  {
    var rows := s.phases[p].rows;
    assert HolderSound(s, s.phases[p]);
    DumpReads(s.disk, rows);
    var t := s.(files := s.files[s.next := Dump(s.disk, rows)], next := s.next + 1);
    forall q | q in s.phases ensures HolderSound(t, s.phases[q]) {
      assert HolderSound(s, s.phases[q]);
    }
    MoveKeepsInv(t, p, CompactTemp(s.next));
  }

  lemma ReplaceKeepsInv(s: State, p: Pid)
    requires Inv(s) && p in s.phases && s.phases[p].CompactTemp?
    ensures Keeps(s, StepCompact(s, p, Replace))
  {
    assert HolderSound(s, s.phases[p]);
    assert forall q | q in s.phases && q != p :: !Holding(s.phases[q]) && HolderSound(s, s.phases[q]);
    PlainRowsAreStorable(PathRows(s));
    assert PathRows(StepCompact(s, p, Replace)) == s.log;
    forall row | row in s.log ensures row in PathRows(s) {
      InPlainRows(PathRows(s), row);
    }
  }

  lemma StepCompactKeepsInv(s: State, p: Pid, act: Act)
    requires Inv(s) && p in s.phases
    ensures Keeps(s, StepCompact(s, p, act))
  {
    match (s.phases[p], act)
    case (CompactWaiting, LockCompact) =>
      if s.lock == None {
        TakeLockKeepsInv(s, p, CompactLocked);
      }
    case (CompactLocked, ReadCompact) => MoveKeepsInv(s, p, CompactRead(PathRows(s)));
    case (CompactRead(rows), WriteTemp) => WriteTempKeepsInv(s, p);
    case (CompactTemp(i), Replace) => ReplaceKeepsInv(s, p);
    case (CompactDone, ReturnCompact) => ReleaseKeepsInv(s, p);
    case _ =>
  }

  lemma StepCases(s: State, e: Event)
    requires e.pid in s.phases
    ensures
      || Step(s, e) == Release(s, e.pid)
      || Step(s, e) == StepBegin(s, e.pid, e.act)
      || Step(s, e) == StepAppend(s, e.pid, e.act)
      || Step(s, e) == StepCompact(s, e.pid, e.act)
  {
  }

  lemma StepKeepsInv(s: State, e: Event)
    requires Inv(s)
    ensures Keeps(s, Step(s, e))
  {
    if e.pid in s.phases {
      ReleaseKeepsInv(s, e.pid);
      StepBeginKeepsInv(s, e.pid, e.act);
      StepAppendKeepsInv(s, e.pid, e.act);
      StepCompactKeepsInv(s, e.pid, e.act);
      StepCases(s, e);
    }
  }

  lemma {:induction false} RunKeepsInv(s: State, events: seq<Event>)
    requires Inv(s)
    ensures Keeps(s, Run(s, events))
  {
    if events != [] {
      RunKeepsInv(s, events[..|events| - 1]);
      StepKeepsInv(Run(s, events[..|events| - 1]), events[|events| - 1]);
    }
  }

  /** Whatever happens later, a row whose append returned "added" is in the file
      at the path when it is plain, and otherwise only if it was there at first;
      those that are plain keep the order of the acknowledgements. */
  lemma AcknowledgedRowsStay(s: State, before: seq<Event>, after: seq<Event>)
    requires Start(s)
    ensures
      var acks := Run(s, before).acks;
      var rows := PathRows(Run(Run(s, before), after));
      && (forall k | 0 <= k < |acks| && acks[k].row !in PathRows(s) :: acks[k].row in rows <==> Plain(acks[k].row))
      && (forall k | 0 <= k < |acks| && Plain(acks[k].row) ::
            acks[k].at.Some? && acks[k].at.value < |PlainRows(rows)| && PlainRows(rows)[acks[k].at.value] == acks[k].row
            && acks[k].row in rows)
      && (forall j, k | 0 <= j < k < |acks| && acks[j].at.Some? && acks[k].at.Some? :: acks[j].at.value < acks[k].at.value)
  {
    StartIsSound(s);
    RunKeepsInv(s, before);
    RunKeepsInv(Run(s, before), after);
    var acks := Run(s, before).acks;
    var rows := PathRows(Run(Run(s, before), after));
    forall k | 0 <= k < |acks| && Plain(acks[k].row)
      ensures acks[k].at.Some? && acks[k].at.value < |PlainRows(rows)| && PlainRows(rows)[acks[k].at.value] == acks[k].row && acks[k].row in rows
    {
      InPlainRows(rows, acks[k].row);
    }
  }

  // ---- why the path is opened under the lock --------------------------

  lemma Then(s: State, events: seq<Event>, now: State, e: Event) returns (longer: seq<Event>)
    requires Run(s, events) == now
    ensures longer == events + [e] && Run(s, longer) == Step(now, e)
  {
    longer := events + [e];
    assert longer[..|events|] == events;
  }

  lemma WriteStep(t: State, p: Pid, row: TagRow, i: Inode)
    requires p in t.phases && t.phases[p] == Locked(row, Some(i))
    ensures Step(t, Event(p, Write)) == WriteRow(t, p, row, i)
  {
  }

  lemma ReturnStep(t: State, p: Pid, row: TagRow, at: Option<nat>)
    requires p in t.phases && t.phases[p] == Wrote(row, at)
    ensures Step(t, Event(p, Return)) == Release(t, p).(acks := t.acks + [Ack(row, at)])
  {
  }

  /** With the other order, open before lock, a row is acknowledged and then is
      nowhere in the file: a compaction replaced the inode in between. */
  lemma OpeningEarlyLosesARow(d: Disk, row: TagRow) returns (s: State, events: seq<Event>)
    requires Lawful(d) && Storable(row) && Plain(row) && row.action.Add? && row.dim == Content && row.ruleId != ""
    ensures s.disk == d && s.openEarly && Start(s.(openEarly := false))
    ensures Run(s, events).acks == [Ack(row, Some(0))] && PathRows(Run(s, events)) == []
  {
    s := EmptyFile(d);
    events := EarlyOpenRun(s, row);
    var held := s.(phases := map[0 := Admitted(row, 0, Some(0)), 1 := Idle]);
    var read := held.(phases := held.phases[1 := CompactRead([])], lock := Some(1));
    events := CompactReadRun(s, events, held);
    events := CompactReplaceRun(s, events, read);
    var replaced := held.(path := Some(1), files := map[0 := "", 1 := ""], next := 2);
    assert read.phases[1 := Idle] == held.phases;
    events := LateWriteRun(s, events, replaced, row);
  }

  function EmptyFile(d: Disk): State {
    State(d, true, Some(0), map[0 := ""], 1, None, map[0 := Idle, 1 := Idle], {}, [], [])
  }

  lemma LateWriteRun(s: State, events: seq<Event>, t: State, row: TagRow) returns (longer: seq<Event>)
    requires Run(s, events) == t && Lawful(t.disk) && Plain(row)
    requires 0 in t.phases && t.phases[0] == Admitted(row, 0, Some(0)) && t.lock == None
    requires t.files == map[0 := "", 1 := ""] && t.path == Some(1) && t.log == [] && t.acks == []
    ensures Run(s, longer).acks == [Ack(row, Some(0))] && PathRows(Run(s, longer)) == []
  {
    longer := Then(s, events, t, Event(0, TryLock));
    var locked := Move(t.(lock := Some(0)), 0, Locked(row, Some(0)));
    assert Run(s, longer) == locked;
    longer := Then(s, longer, locked, Event(0, Write));
    WriteStep(locked, 0, row, 0);
    var wrote := WriteRow(locked, 0, row, 0);
    longer := Then(s, longer, wrote, Event(0, Return));
    ReturnStep(wrote, 0, row, Some(0));
  }

  lemma EarlyOpenRun(s: State, row: TagRow) returns (events: seq<Event>)
    requires s == EmptyFile(s.disk) && Lawful(s.disk) && Storable(row)
    requires row.action.Add? && row.dim == Content && row.ruleId != ""
    ensures Run(s, events) == s.(phases := map[0 := Admitted(row, 0, Some(0)), 1 := Idle])
  {
    events := Then(s, [], s, Event(0, BeginContent(row, {})));
    var begun := Move(s, 0, Validated(row, {}));
    assert PathRows(begun) == [] && Active([]) == map[];
    events := Then(s, events, begun, Event(0, Admit));
    events := Then(s, events, Move(begun, 0, Admitted(row, 0, None)), Event(0, Open));
  }

  lemma CompactReadRun(s: State, events: seq<Event>, t: State) returns (longer: seq<Event>)
    requires Run(s, events) == t && Lawful(t.disk)
    requires 1 in t.phases && t.phases[1] == Idle && t.lock == None
    requires t.path == Some(0) && t.files == map[0 := ""]
    ensures Run(s, longer) == t.(phases := t.phases[1 := CompactRead([])], lock := Some(1))
  {
    longer := Then(s, events, t, Event(1, BeginCompact));
    longer := Then(s, longer, Move(t, 1, CompactWaiting), Event(1, LockCompact));
    var locked := t.(phases := t.phases[1 := CompactLocked], lock := Some(1));
    assert Run(s, longer) == locked;
    longer := Then(s, longer, locked, Event(1, ReadCompact));
  }

  lemma CompactReplaceRun(s: State, events: seq<Event>, t: State) returns (longer: seq<Event>)
    requires Run(s, events) == t
    requires 1 in t.phases && t.phases[1] == CompactRead([]) && t.lock == Some(1)
    requires t.files == map[0 := ""] && t.next == 1
    ensures Run(s, longer) ==
            t.(phases := t.phases[1 := Idle], lock := None, path := Some(1), files := map[0 := "", 1 := ""], next := 2)
  {
    longer := Then(s, events, t, Event(1, WriteTemp));
    assert Dump(t.disk, []) == "" && t.files[1 := ""] == map[0 := "", 1 := ""];
    var written := Move(t.(files := map[0 := "", 1 := ""], next := 2), 1, CompactTemp(1));
    longer := ReplaceReturnRun(s, longer, written);
    assert t.phases[1 := CompactTemp(1)][1 := Idle] == t.phases[1 := Idle];
  }

  lemma ReplaceReturnRun(s: State, events: seq<Event>, t: State) returns (longer: seq<Event>)
    requires Run(s, events) == t
    requires 1 in t.phases && t.phases[1] == CompactTemp(1) && t.lock == Some(1)
    ensures Run(s, longer) == t.(phases := t.phases[1 := Idle], lock := None, path := Some(1))
  {
    longer := Then(s, events, t, Event(1, Replace));
    var replaced := Move(t.(path := Some(1)), 1, CompactDone);
    longer := Then(s, longer, replaced, Event(1, ReturnCompact));
    assert t.phases[1 := CompactDone][1 := Idle] == t.phases[1 := Idle];
  }
}
