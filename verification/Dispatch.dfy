/** The dispatch health check: every job in one class, from the status lines that
    name exactly that job. */
module Dispatch {
  import opened Text

  datatype Job = Job(jobId: string, eventId: string, articleId: string, userId: string)

  datatype State = Notified | AnalysisStarted | AnalysisSucceeded | PushSucceeded | Failed

  datatype Status = Status(
    jobId: string, eventId: string, articleId: string, userId: string,
    state: State, attempt: nat, consumer: string, target: string, error: string)

  /** A line of the status file: an entry, or one that cannot be read as one. */
  datatype Line = Entry(status: Status) | Unreadable

  predicate Matches(s: Status, j: Job) {
    s.jobId == j.jobId && s.eventId == j.eventId && s.articleId == j.articleId && s.userId == j.userId
  }

  /** A push reported by Hermes to Feishu; nobody else's claim counts. */
  predicate IsAck(s: Status) {
    s.state.PushSucceeded? && s.consumer == "hermes" && s.target == "feishu"
  }

  datatype Class = Pending | Completed | PartlyDone | Lost

  datatype Detail = Detail(jobId: string, kind: Class, lastAttempt: nat, lastError: string)

  datatype Health = Health(
    total: nat, completed: nat, partial: nat, bad: nat, waiting: bool,
    pendingIds: seq<string>, failedIds: seq<string>, partialIds: seq<string>, details: seq<Detail>)

  // ---- the entries that count -----------------------------------------

  function Entries(lines: seq<Line>): seq<Status> {
    if lines == [] then []
    else
      var rest := Entries(lines[..|lines| - 1]);
      match lines[|lines| - 1]
      case Entry(s) => rest + [s]
      case Unreadable => rest
  }

  function Bad(lines: seq<Line>): nat {
    if lines == [] then 0
    else Bad(lines[..|lines| - 1]) + if lines[|lines| - 1].Unreadable? then 1 else 0
  }

  /** The entries that name this job in full, in order. */
  function Bound(statuses: seq<Status>, j: Job): seq<Status> {
    if statuses == [] then []
    else
      var rest := Bound(statuses[..|statuses| - 1], j);
      var s := statuses[|statuses| - 1];
      if Matches(s, j) then rest + [s] else rest
  }

  /** The last acknowledgement among some entries. */
  function LastAck(bound: seq<Status>): Option<Status> {
    if bound == [] then None
    else if IsAck(bound[|bound| - 1]) then Some(bound[|bound| - 1])
    else LastAck(bound[..|bound| - 1])
  }

  function ClassOf(bound: seq<Status>): Class {
    if bound == [] then Pending
    else if LastAck(bound).Some? then Completed
    else
      match bound[|bound| - 1].state
      case Failed => Lost
      case AnalysisSucceeded => PartlyDone
      case _ => Pending
  }

  function DetailOf(bound: seq<Status>, j: Job): Detail {
    if bound == [] then Detail(j.jobId, Pending, 0, "")
    else if LastAck(bound).Some? then Detail(j.jobId, Completed, LastAck(bound).value.attempt, "")
    else Detail(j.jobId, ClassOf(bound), bound[|bound| - 1].attempt, bound[|bound| - 1].error)
  }

  /** The jobs of one class, in order. */
  function InClass(jobs: seq<Job>, statuses: seq<Status>, kind: Class): seq<string> {
    if jobs == [] then []
    else
      var rest := InClass(jobs[..|jobs| - 1], statuses, kind);
      var j := jobs[|jobs| - 1];
      if ClassOf(Bound(statuses, j)) == kind then rest + [j.jobId] else rest
  }

  function Details(jobs: seq<Job>, statuses: seq<Status>): seq<Detail> {
    if jobs == [] then []
    else Details(jobs[..|jobs| - 1], statuses) + [DetailOf(Bound(statuses, jobs[|jobs| - 1]), jobs[|jobs| - 1])]
  }

  function HealthOf(jobs: seq<Job>, lines: seq<Line>): Health {
    var statuses := Entries(lines);
    Health(|jobs|, |InClass(jobs, statuses, Completed)|, |InClass(jobs, statuses, PartlyDone)|, Bad(lines),
           InClass(jobs, statuses, Pending) != [] || InClass(jobs, statuses, PartlyDone) != [],
           InClass(jobs, statuses, Pending), InClass(jobs, statuses, Lost), InClass(jobs, statuses, PartlyDone),
           Details(jobs, statuses))
  }

  // ---- the check itself -----------------------------------------------

  function SameId(statuses: seq<Status>, id: string): seq<Status> {
    if statuses == [] then []
    else
      var rest := SameId(statuses[..|statuses| - 1], id);
      if statuses[|statuses| - 1].jobId == id then rest + [statuses[|statuses| - 1]] else rest
  }

  /** Entries are first grouped by job id, then matched in full. */
  lemma {:induction false} GroupHoldsTheBound(statuses: seq<Status>, j: Job)
    ensures Bound(SameId(statuses, j.jobId), j) == Bound(statuses, j)
  {
    if statuses != [] {
      var front := statuses[..|statuses| - 1];
      GroupHoldsTheBound(front, j);
      if statuses[|statuses| - 1].jobId == j.jobId {
        assert SameId(statuses, j.jobId)[..|SameId(front, j.jobId)|] == SameId(front, j.jobId);
      }
    }
  }

  method ReadStatuses(lines: seq<Line>) returns (entries: seq<Status>, bad: nat)
    ensures entries == Entries(lines) && bad == Bad(lines)
  {
    entries, bad := [], 0;
    for i := 0 to |lines|
      invariant entries == Entries(lines[..i]) && bad == Bad(lines[..i])
    {
      assert lines[..i + 1][..i] == lines[..i];
      match lines[i] {
        case Entry(s) => entries := entries + [s];
        case Unreadable => bad := bad + 1;
      }
    }
    assert lines[..|lines|] == lines;
  }

  method GroupById(statuses: seq<Status>) returns (byId: map<string, seq<Status>>)
    ensures forall id :: (if id in byId then byId[id] else []) == SameId(statuses, id)
  {
    byId := map[];
    for i := 0 to |statuses|
      invariant forall id :: (if id in byId then byId[id] else []) == SameId(statuses[..i], id)
    {
      assert statuses[..i + 1][..i] == statuses[..i];
      var s := statuses[i];
      byId := byId[s.jobId := (if s.jobId in byId then byId[s.jobId] else []) + [s]];
    }
    assert statuses[..|statuses|] == statuses;
  }

  method BoundTo(group: seq<Status>, j: Job) returns (bound: seq<Status>)
    ensures bound == Bound(group, j)
  {
    bound := [];
    for i := 0 to |group|
      invariant bound == Bound(group[..i], j)
    {
      assert group[..i + 1][..i] == group[..i];
      if Matches(group[i], j) {
        bound := bound + [group[i]];
      }
    }
    assert group[..|group|] == group;
  }

  /** The first acknowledgement from the end. */
  method NewestAck(bound: seq<Status>) returns (ack: Option<Status>)
    ensures ack == LastAck(bound)
  {
    var i := |bound|;
    assert bound[..i] == bound;
    while i > 0
      invariant 0 <= i <= |bound| && LastAck(bound[..i]) == LastAck(bound)
    {
      assert bound[..i][..i - 1] == bound[..i - 1];
      i := i - 1;
      if IsAck(bound[i]) {
        return Some(bound[i]);
      }
    }
    ack := None;
  }

  /** Where one job stands. */
  method Assess(bound: seq<Status>, j: Job) returns (d: Detail)
    ensures d == DetailOf(bound, j) && d.kind == ClassOf(bound)
  {
    var ack := NewestAck(bound);
    if bound == [] {
      d := Detail(j.jobId, Pending, 0, "");
    } else if ack.Some? {
      d := Detail(j.jobId, Completed, ack.value.attempt, "");
    } else {
      var latest := bound[|bound| - 1];
      var kind :=
        if latest.state.Failed? then Lost
        else if latest.state.AnalysisSucceeded? then PartlyDone
        else Pending;
      d := Detail(j.jobId, kind, latest.attempt, latest.error);
    }
  }

  lemma NextJob(jobs: seq<Job>, statuses: seq<Status>, i: nat)
    requires i < |jobs|
    ensures
      var bound := Bound(statuses, jobs[i]);
      && Details(jobs[..i + 1], statuses) == Details(jobs[..i], statuses) + [DetailOf(bound, jobs[i])]
      && (forall kind :: InClass(jobs[..i + 1], statuses, kind) ==
                           InClass(jobs[..i], statuses, kind) + if ClassOf(bound) == kind then [jobs[i].jobId] else [])
  {
    assert jobs[..i + 1][..i] == jobs[..i];
  }

  method CheckHealth(jobs: seq<Job>, lines: seq<Line>) returns (h: Health)
    ensures h == HealthOf(jobs, lines)
  {
    var statuses, bad := ReadStatuses(lines);
    var byId := GroupById(statuses);
    var pendingIds, failedIds, partialIds, details := [], [], [], [];
    var completed := 0;
    for i := 0 to |jobs|
      invariant pendingIds == InClass(jobs[..i], statuses, Pending) && failedIds == InClass(jobs[..i], statuses, Lost)
      invariant partialIds == InClass(jobs[..i], statuses, PartlyDone)
      invariant completed == |InClass(jobs[..i], statuses, Completed)| && details == Details(jobs[..i], statuses)
    {
      var j := jobs[i];
      GroupHoldsTheBound(statuses, j);
      NextJob(jobs, statuses, i);
      var bound := BoundTo(if j.jobId in byId then byId[j.jobId] else [], j);
      var d := Assess(bound, j);
      details := details + [d];
      match d.kind {
        case Completed => completed := completed + 1;
        case Lost => failedIds := failedIds + [j.jobId];
        case PartlyDone => partialIds := partialIds + [j.jobId];
        case Pending => pendingIds := pendingIds + [j.jobId];
      }
    }
    assert jobs[..|jobs|] == jobs;
    var partial := |partialIds|;
    h := Health(|jobs|, completed, partial, bad, |pendingIds| + partial > 0, pendingIds, failedIds, partialIds, details);
  }

  // ---- what the classes mean ------------------------------------------

  lemma {:induction false} AckIsFound(bound: seq<Status>)
    ensures LastAck(bound).Some? <==> exists i | 0 <= i < |bound| :: IsAck(bound[i])
  {
    if bound != [] && !IsAck(bound[|bound| - 1]) {
      AckIsFound(bound[..|bound| - 1]);
      if i :| 0 <= i < |bound| && IsAck(bound[i]) {
        assert bound[..|bound| - 1][i] == bound[i];
      }
    }
  }

  lemma {:induction false} BoundEntriesAreTheJobs(statuses: seq<Status>, j: Job)
    ensures forall s :: s in Bound(statuses, j) <==> s in statuses && Matches(s, j)
  {
    if statuses != [] {
      BoundEntriesAreTheJobs(statuses[..|statuses| - 1], j);
      assert statuses == statuses[..|statuses| - 1] + [statuses[|statuses| - 1]];
    }
  }

  /** A job is completed exactly when some entry in the file names it in full and
      is a Hermes acknowledgement to Feishu, wherever it stands. */
  lemma CompletedMeansAcknowledged(statuses: seq<Status>, j: Job)
    ensures ClassOf(Bound(statuses, j)).Completed? <==> exists s | s in statuses :: Matches(s, j) && IsAck(s)
  {
    var bound := Bound(statuses, j);
    AckIsFound(bound);
    BoundEntriesAreTheJobs(statuses, j);
    if s :| s in statuses && Matches(s, j) && IsAck(s) {
      assert s in bound;
    }
  }

  /** The documented "latest status is failed" is what failed means exactly when
      the job was never acknowledged. */
  lemma FailedMeansLatestFailed(bound: seq<Status>)
    ensures ClassOf(bound).Lost? <==>
              bound != [] && bound[|bound| - 1].state.Failed? && !(exists i | 0 <= i < |bound| :: IsAck(bound[i]))
  {
    AckIsFound(bound);
  }

  lemma {:induction false} BoundJoins(a: seq<Status>, b: seq<Status>, j: Job)
    ensures Bound(a + b, j) == Bound(a, j) + Bound(b, j)
  {
    if b == [] {
      assert a + b == a;
    } else {
      assert (a + b)[..|a + b| - 1] == a + b[..|b| - 1];
      BoundJoins(a, b[..|b| - 1], j);
    }
  }

  /** Entries that do not name the job in full change nothing for it, even under
      its job id: two files with the same bound entries give it the same class,
      attempt and error. */
  lemma ForeignEntriesChangeNothing(a: seq<Status>, foreign: Status, b: seq<Status>, j: Job)
    requires !Matches(foreign, j)
    ensures DetailOf(Bound(a + [foreign] + b, j), j) == DetailOf(Bound(a + b, j), j)
  {
    BoundJoins(a + [foreign], b, j);
    BoundJoins(a, [foreign], j);
    BoundJoins(a, b, j);
    assert [foreign][..0] == [];
    assert Bound([foreign], j) == [];
  }

  lemma {:induction false} EveryJobHasOneClass(jobs: seq<Job>, statuses: seq<Status>)
    ensures
      |jobs| == |InClass(jobs, statuses, Pending)| + |InClass(jobs, statuses, Completed)|
              + |InClass(jobs, statuses, PartlyDone)| + |InClass(jobs, statuses, Lost)|
  {
    if jobs != [] {
      EveryJobHasOneClass(jobs[..|jobs| - 1], statuses);
    }
  }

  /** The totals add up, and something waits exactly when some job is neither
      completed nor failed. */
  lemma TotalsAddUp(jobs: seq<Job>, lines: seq<Line>)
    ensures
      var h := HealthOf(jobs, lines);
      && h.total == |h.pendingIds| + h.completed + h.partial + |h.failedIds|
      && (h.waiting <==> h.completed + |h.failedIds| < h.total)
  {
    EveryJobHasOneClass(jobs, Entries(lines));
  }

  lemma {:induction false} CompletedGrows(jobs: seq<Job>, a: seq<Status>, b: seq<Status>)
    ensures |InClass(jobs, a, Completed)| <= |InClass(jobs, a + b, Completed)|
  {
    if jobs != [] {
      var j := jobs[|jobs| - 1];
      CompletedGrows(jobs[..|jobs| - 1], a, b);
      CompletedMeansAcknowledged(a, j);
      CompletedMeansAcknowledged(a + b, j);
    }
  }

  lemma {:induction false} EntriesJoin(a: seq<Line>, b: seq<Line>)
    ensures Entries(a + b) == Entries(a) + Entries(b) && Bad(a + b) == Bad(a) + Bad(b)
  {
    if b == [] {
      assert a + b == a;
    } else {
      assert (a + b)[..|a + b| - 1] == a + b[..|b| - 1];
      EntriesJoin(a, b[..|b| - 1]);
    }
  }

  /** Appending lines never takes a completion away, whatever they say. */
  lemma CompletedNeverFalls(jobs: seq<Job>, lines: seq<Line>, more: seq<Line>)
    ensures HealthOf(jobs, lines).completed <= HealthOf(jobs, lines + more).completed
  {
    EntriesJoin(lines, more);
    CompletedGrows(jobs, Entries(lines), Entries(more));
  }

  /** A line that cannot be read shows in the bad count and nowhere else. */
  lemma BadLinesOnlyCount(jobs: seq<Job>, a: seq<Line>, b: seq<Line>)
    ensures HealthOf(jobs, a + [Unreadable] + b) == HealthOf(jobs, a + b).(bad := HealthOf(jobs, a + b).bad + 1)
  {
    EntriesJoin(a + [Unreadable], b);
    EntriesJoin(a, [Unreadable]);
    EntriesJoin(a, b);
    assert [Unreadable][..0] == [];
    assert Entries([Unreadable]) == [] && Bad([Unreadable]) == 1;
  }

  // ---- the report, said of the lines ----------------------------------

  predicate Names(line: Line, j: Job) {
    && line.Entry? && line.status.jobId == j.jobId && line.status.eventId == j.eventId
    && line.status.articleId == j.articleId && line.status.userId == j.userId
  }

  predicate Acknowledges(line: Line, j: Job) {
    Names(line, j) && line.status.state == PushSucceeded && line.status.consumer == "hermes" && line.status.target == "feishu"
  }

  /** The last line that names the job, and the last that acknowledges it. */
  predicate IsLatest(lines: seq<Line>, j: Job, n: nat) {
    n < |lines| && Names(lines[n], j) && forall m | n < m < |lines| :: !Names(lines[m], j)
  }

  predicate IsLatestAck(lines: seq<Line>, j: Job, n: nat) {
    n < |lines| && Acknowledges(lines[n], j) && forall m | n < m < |lines| :: !Acknowledges(lines[m], j)
  }

  lemma BoundMore(lines: seq<Line>, j: Job)
    requires lines != []
    ensures
      var rest, last := Bound(Entries(lines[..|lines| - 1]), j), lines[|lines| - 1];
      Bound(Entries(lines), j) == if Names(last, j) then rest + [last.status] else rest
  {
    var front, last := lines[..|lines| - 1], lines[|lines| - 1];
    if last.Entry? {
      assert (Entries(front) + [last.status])[..|Entries(front)|] == Entries(front);
    }
  }

  lemma {:induction false} UnnamedIsUnbound(lines: seq<Line>, j: Job)
    requires forall m | 0 <= m < |lines| :: !Names(lines[m], j)
    ensures Bound(Entries(lines), j) == []
  {
    if lines != [] {
      UnnamedIsUnbound(lines[..|lines| - 1], j);
      BoundMore(lines, j);
    }
  }

  lemma {:induction false} LatestIsLast(lines: seq<Line>, j: Job, n: nat)
    requires IsLatest(lines, j, n)
    ensures var bound := Bound(Entries(lines), j); bound != [] && bound[|bound| - 1] == lines[n].status
  {
    BoundMore(lines, j);
    if n < |lines| - 1 {
      LatestIsLast(lines[..|lines| - 1], j, n);
    }
  }

  lemma AckMore(bound: seq<Status>, s: Status)
    ensures LastAck(bound + [s]) == if IsAck(s) then Some(s) else LastAck(bound)
  {
    assert (bound + [s])[..|bound|] == bound;
  }

  lemma {:induction false} NoAckIsFound(lines: seq<Line>, j: Job)
    requires forall m | 0 <= m < |lines| :: !Acknowledges(lines[m], j)
    ensures LastAck(Bound(Entries(lines), j)).None?
  {
    if lines != [] {
      NoAckIsFound(lines[..|lines| - 1], j);
      BoundMore(lines, j);
      var last := lines[|lines| - 1];
      if Names(last, j) {
        AckMore(Bound(Entries(lines[..|lines| - 1]), j), last.status);
      }
    }
  }

  lemma {:induction false} LatestAckIsLast(lines: seq<Line>, j: Job, n: nat)
    requires IsLatestAck(lines, j, n)
    ensures LastAck(Bound(Entries(lines), j)) == Some(lines[n].status)
  {
    BoundMore(lines, j);
    var last := lines[|lines| - 1];
    if Names(last, j) {
      AckMore(Bound(Entries(lines[..|lines| - 1]), j), last.status);
    }
    if n < |lines| - 1 {
      LatestAckIsLast(lines[..|lines| - 1], j, n);
    }
  }

  /** The class that the last line about a job gives it, without acknowledgement. */
  function ClassBy(state: State): Class {
    if state == Failed then Lost else if state == AnalysisSucceeded then PartlyDone else Pending
  }

  /** One job in the report: completed by the last acknowledgement, whatever comes
      after it, and otherwise as the last line about it says. */
  lemma JobsAreReported(jobs: seq<Job>, lines: seq<Line>, i: nat, n: nat)
    requires i < |jobs|
    ensures
      var j, details := jobs[i], HealthOf(jobs, lines).details;
      && |details| == |jobs|
      && (IsLatestAck(lines, j, n) ==> details[i] == Detail(j.jobId, Completed, lines[n].status.attempt, ""))
      && (IsLatest(lines, j, n) && (forall m | 0 <= m < |lines| :: !Acknowledges(lines[m], j)) ==>
            details[i] == Detail(j.jobId, ClassBy(lines[n].status.state), lines[n].status.attempt, lines[n].status.error))
      && ((forall m | 0 <= m < |lines| :: !Names(lines[m], j)) ==> details[i] == Detail(j.jobId, Pending, 0, ""))
  {
    DetailAt(jobs, Entries(lines), i);
    if IsLatestAck(lines, jobs[i], n) {
      LatestAckIsLast(lines, jobs[i], n);
      assert Bound(Entries(lines), jobs[i]) != [];
    }
    if forall m | 0 <= m < |lines| :: !Names(lines[m], jobs[i]) {
      UnnamedIsUnbound(lines, jobs[i]);
    }
    if IsLatest(lines, jobs[i], n) {
      LatestIsLast(lines, jobs[i], n);
      if forall m | 0 <= m < |lines| :: !Acknowledges(lines[m], jobs[i]) {
        NoAckIsFound(lines, jobs[i]);
      }
    }
  }

  lemma {:induction false} DetailAt(jobs: seq<Job>, statuses: seq<Status>, i: nat)
    requires i < |jobs|
    ensures |Details(jobs, statuses)| == |jobs| && Details(jobs, statuses)[i] == DetailOf(Bound(statuses, jobs[i]), jobs[i])
  {
    if |jobs| > 1 {
      DetailAt(jobs[..|jobs| - 1], statuses, if i < |jobs| - 1 then i else 0);
    }
  }

  /** The ids of the details of one class, in order. */
  function IdsOf(details: seq<Detail>, kind: Class): seq<string> {
    if details == [] then []
    else IdsOf(details[..|details| - 1], kind) + if details[|details| - 1].kind == kind then [details[|details| - 1].jobId] else []
  }

  lemma {:induction false} ClassesFollowDetails(jobs: seq<Job>, statuses: seq<Status>, kind: Class)
    ensures InClass(jobs, statuses, kind) == IdsOf(Details(jobs, statuses), kind)
  {
    if jobs != [] {
      ClassesFollowDetails(jobs[..|jobs| - 1], statuses, kind);
      var rest := Details(jobs[..|jobs| - 1], statuses);
      assert Details(jobs, statuses)[..|rest|] == rest;
    }
  }

  /** The lists and counts of the report are those of its details. */
  lemma ReportFollowsDetails(jobs: seq<Job>, lines: seq<Line>)
    ensures
      var h := HealthOf(jobs, lines);
      && h.pendingIds == IdsOf(h.details, Pending) && h.failedIds == IdsOf(h.details, Lost) && h.partialIds == IdsOf(h.details, PartlyDone)
      && h.completed == |IdsOf(h.details, Completed)| && h.partial == |h.partialIds|
      && (h.waiting <==> h.pendingIds != [] || h.partialIds != [])
  {
    ClassesFollowDetails(jobs, Entries(lines), Pending);
    ClassesFollowDetails(jobs, Entries(lines), Lost);
    ClassesFollowDetails(jobs, Entries(lines), PartlyDone);
    ClassesFollowDetails(jobs, Entries(lines), Completed);
  }
}
