/** The capture queue, said of the files in the run directories: which runs wait,
    and what polls and requested passes leave behind. */
module Queues {
  import opened Text
  import opened Capture

  // ---- what the files of a run say ------------------------------------

  /** A published capture whose summary names its run, commit and artifact. */
  predicate Vouched(r: RunDir) {
    && r.named && r.plain && r.summary.Summary? && r.artifact.Artifact? && r.artifact.identity.Some?
    && r.summary.idMatches && r.summary.captureExit == Some(0) && FullSha(r.summary.commit)
    && r.summary.ready && r.summary.published && r.summary.artifactDigest == r.artifact.digest
  }

  /** What the capture wrapper leaves of a good capture. */
  predicate NewRun(r: RunDir) {
    && Vouched(r) && r.result.NoResult? && r.summary.resultStamp.None?
    && r.summary.errorCode.None? && r.summary.exitCode == Some(0) && !r.summary.legacyKeys
  }

  /** What the older wrapper left when it did not get to the end of its consumer. */
  predicate LegacyRun(r: RunDir) {
    && Vouched(r) && r.result.NoResult? && r.summary.resultStamp.None?
    && r.summary.errorCode in {Some("consumer"), Some("consumer_pending"), Some("consumer_protocol"), Some("wsl_transport")}
    && r.summary.exitCode.Some? && r.summary.exitCode != Some(0)
  }

  predicate Arrived(r: RunDir) {
    NewRun(r) || LegacyRun(r)
  }

  /** A result for this capture that asks for another try, and is not contradicted
      by the summary. */
  predicate ToRetry(r: RunDir) {
    && Vouched(r) && r.result.Written?
    && var p := r.result.payload;
       && p.id == r.id && FullSha(p.sourceCommit) && p.captureCommit == r.summary.commit && p.through == r.artifact.digest
       && p.completed >= 0 && p.status == Retryable && (p.exit == 70 || p.exit == 75)
       && (r.summary.resultStamp in {None, Some(StampOf(p))}
           || (r.summary.errorCode == Some("consumer") && r.summary.consumerStatus == Some("retryable")
               && r.summary.exitCode in {Some(70), Some(75)}))
  }

  /** No article can be lost with this run: it is no run, or nothing was captured,
      or what was captured says that it failed. */
  predicate Harmless(r: RunDir) {
    var empty := r.artifact.NoArtifact? || (r.artifact.Artifact? && r.artifact.failed);
    || !r.named
    || (r.plain && !r.summary.Summary? && r.artifact.NoArtifact?)
    || (r.plain && r.summary.Summary? && (!r.summary.idMatches || r.summary.captureExit.None? || !FullSha(r.summary.commit)) && empty)
    || (r.plain && r.summary.Summary? && r.summary.idMatches && r.summary.captureExit.Some? && FullSha(r.summary.commit)
        && (r.summary.captureExit != Some(0) || !r.summary.ready || !r.summary.published)
        && (r.summary.errorCode == Some("capture_pending") ==> empty))
  }

  function CandidateOf(at: nat, r: RunDir): Candidate
    requires Vouched(r)
  {
    Candidate(at, r.id, r.summary.commit, r.artifact.digest, r.artifact.identity.value)
  }

  /** A run waits exactly when it arrived or is to be retried, and is passed over
      exactly when it is harmless. */
  lemma RunsThatWait(at: nat, r: RunDir)
    ensures Unfinished(Inspect(at, r, None)) <==> Arrived(r) || ToRetry(r)
    ensures Unfinished(Inspect(at, r, None)) ==> Inspect(at, r, None).candidate == CandidateOf(at, r)
    ensures Inspect(at, r, None).Skip? <==> Harmless(r)
  {
  }

  lemma ArrivedIsSeen(at: nat, r: RunDir, expected: Option<string>)
    requires Arrived(r) && (expected.None? || expected == Some(r.summary.commit))
    ensures Inspect(at, r, expected) == Seen(CandidateOf(at, r), None)
  {
  }

  /** A final result for this capture that the summary does not contradict. */
  predicate Finished(r: RunDir) {
    && Vouched(r) && r.result.Written?
    && var p := r.result.payload;
       && p.id == r.id && FullSha(p.sourceCommit) && p.captureCommit == r.summary.commit && p.through == r.artifact.digest
       && p.completed >= 0 && p.status != Retryable
       && (p.status == Ready <==> p.exit == 0) && (p.status == Partial <==> p.exit == 4) && p.exit != 70 && p.exit != 75
       && (r.summary.resultStamp in {None, Some(StampOf(p))}
           || (r.summary.errorCode == Some("consumer") && r.summary.consumerStatus == Some("retryable")
               && r.summary.exitCode in {Some(70), Some(75)}))
  }

  lemma RunsThatAreFinished(at: nat, r: RunDir)
    ensures Inspect(at, r, None).Seen? && !Unfinished(Inspect(at, r, None)) <==> Finished(r)
    ensures Finished(r) ==> Inspect(at, r, None) == Seen(CandidateOf(at, r), Some(r.result.payload))
  {
  }

  /** Nothing is to be done about the run. */
  predicate Passed(r: RunDir) {
    Harmless(r) || Finished(r)
  }

  /** Something may be lost with the run, and nobody can say what. */
  predicate Suspect(r: RunDir) {
    !Harmless(r) && !Arrived(r) && !ToRetry(r) && !Finished(r)
  }

  lemma RunsAreLookedAt(at: nat, r: RunDir)
    ensures Inspect(at, r, None).Corrupt? <==> Suspect(r)
    ensures !Inspect(at, r, None).Corrupt? && !Unfinished(Inspect(at, r, None)) <==> Passed(r)
  {
    RunsThatWait(at, r);
    RunsThatAreFinished(at, r);
  }

  // ---- what the importer's exit comes to ------------------------------

  /** A report of a duplicate of exactly this artifact that passes on another exit
      code, and that is neither success nor a duplicate. */
  predicate PassedOn(report: Report) {
    && report.Report? && report.status == "duplicate" && report.exact
    && report.originalExit.Some? && report.originalExit.value !in {0, 4, 64}
  }

  /** A success or partial success that is not proven is an internal error, and so
      is a duplicate whose report does not say what became of the original; all
      other exits are passed on. */
  lemma UnprovenExitsFail(exit: int, report: Report)
    ensures exit == 0 && !Proven(0, report, 0, "ready") ==> EffectiveExit(exit, report) == 70
    ensures exit == 4 && report.Report? && !Proven(4, report, 4, "partial") ==> EffectiveExit(exit, report) == 70
    ensures exit == 64 && PassedOn(report) ==> EffectiveExit(exit, report) == report.originalExit.value
    ensures exit == 64 && !(report.Report? && report.status == "duplicate") ==> EffectiveExit(exit, report) == 64
    ensures (exit == 64 && report.Report? && report.status == "duplicate" && !PassedOn(report)
             && !Proven(64, report, 0, "ready") && !Proven(64, report, 4, "partial")) ==> EffectiveExit(exit, report) == 70
  {
  }

  // ---- passes that import nothing -------------------------------------

  predicate PassedUpTo(runs: seq<RunDir>, n: nat, notBefore: RunId) {
    n <= |runs| && forall i | 0 <= i < n && runs[i].id >= notBefore :: Passed(runs[i])
  }

  lemma PollSkipsThePassed(runs: seq<RunDir>, n: nat, notBefore: RunId)
    requires PassedUpTo(runs, n, notBefore)
    ensures PollFrom(runs, 0, notBefore) == PollFrom(runs, n, notBefore)
  {
    forall j | 0 <= j < n && runs[j].id >= notBefore
      ensures !Inspect(j, runs[j], None).Corrupt? && !Unfinished(Inspect(j, runs[j], None))
    {
      RunsAreLookedAt(j, runs[j]);
    }
    PollReaches(runs, 0, n, notBefore);
  }

  /** A poll that imports nothing leaves the folder as it is.  It is well when no
      run waits, stops at a suspect run, and only looks in a dry run. */
  lemma PollsThatImportNothing(runs: seq<RunDir>, a: Args, importer: Importer, n: nat)
    requires Sorted(runs) && a.id.None? && PassedUpTo(runs, n, a.notBefore)
    requires n < |runs| ==> runs[n].id >= a.notBefore && !Passed(runs[n])
    ensures !FullSha(a.commit) ==> Pass(runs, a, importer) == Outcome(runs, 2, [])
    ensures FullSha(a.commit) && n == |runs| ==> Pass(runs, a, importer) == Outcome(runs, 0, [])
    ensures FullSha(a.commit) && n < |runs| && Suspect(runs[n]) ==> Pass(runs, a, importer) == Outcome(runs, 70, [])
    ensures FullSha(a.commit) && n < |runs| && !Suspect(runs[n]) && a.dryRun ==> Pass(runs, a, importer) == Outcome(runs, 0, [])
  {
    PollSkipsThePassed(runs, n, a.notBefore);
    if n < |runs| {
      RunsAreLookedAt(n, runs[n]);
    }
  }

  lemma SameCommit(at: nat, r: RunDir, commit: string)
    requires r.summary.Summary? ==> r.summary.commit == commit
    ensures Inspect(at, r, Some(commit)) == Inspect(at, r, None)
  {
  }

  /** An eligible run in front of the requested one is suspect. */
  predicate SuspectBefore(runs: seq<RunDir>, n: nat, notBefore: RunId, id: RunId)
    requires n <= |runs|
  {
    exists j | 0 <= j < n :: notBefore <= runs[j].id < id && Suspect(runs[j])
  }

  lemma {:induction false} SuspectBacklogFails(runs: seq<RunDir>, n: nat, notBefore: RunId, id: RunId)
    requires n <= |runs|
    ensures BacklogUpTo(runs, n, notBefore, id).Err? <==> SuspectBefore(runs, n, notBefore, id)
  {
    if n > 0 {
      SuspectBacklogFails(runs, n - 1, notBefore, id);
      RunsAreLookedAt(n - 1, runs[n - 1]);
      assert SuspectBefore(runs, n, notBefore, id) <==>
        SuspectBefore(runs, n - 1, notBefore, id) || (notBefore <= runs[n - 1].id < id && Suspect(runs[n - 1]));
    }
  }

  /** What a request for a run comes to, in a folder and for a commit that the
      wrapper gave for it, when nothing is imported: to be tried again for a run
      that is not eligible or not there yet, the exit of its final result, or an
      internal error at a suspect run.  A run that waits behind a suspect one gets
      that as its result; a dry run only looks. */
  lemma RequestsThatImportNothing(runs: seq<RunDir>, a: Args, importer: Importer, at: nat)
    requires Sorted(runs) && FullSha(a.commit) && at < |runs| && a.id == Some(runs[at].id)
    requires runs[at].summary.Summary? ==> runs[at].summary.commit == a.commit
    ensures
      var r, out := runs[at], Pass(runs, a, importer);
      && (r.id < a.notBefore || Harmless(r) ==> out == Outcome(runs, 75, []))
      && (r.id >= a.notBefore && Finished(r) ==> out == Outcome(runs, r.result.payload.exit, []))
      && (r.id >= a.notBefore && Suspect(r) ==> out == Outcome(runs, 70, []))
      && (r.id >= a.notBefore && (Arrived(r) || ToRetry(r)) ==>
            if SuspectBefore(runs, |runs|, a.notBefore, r.id) then
              out == Outcome(runs[at := ResultFor(r, a.commit, 70, 0, None)], 70, [])
            else a.dryRun ==> out == Outcome(runs, 0, []))
  {
    var r := runs[at];
    FindAt(runs, at);
    SameCommit(at, r, a.commit);
    RunsAreLookedAt(at, r);
    RunsThatWait(at, r);
    RunsThatAreFinished(at, r);
    SuspectBacklogFails(runs, |runs|, a.notBefore, r.id);
  }

  /** A request for a run that is not there is to be tried again, and one for a
      capture of another commit is an internal error, unless that failed. */
  lemma RequestsForOtherRuns(runs: seq<RunDir>, a: Args, importer: Importer)
    requires Sorted(runs) && FullSha(a.commit) && a.id.Some?
    ensures (forall i | 0 <= i < |runs| :: runs[i].id != a.id.value) ==> Pass(runs, a, importer) == Outcome(runs, 75, [])
    ensures forall at | 0 <= at < |runs| && runs[at].id == a.id.value >= a.notBefore && Vouched(runs[at]) && runs[at].summary.commit != a.commit ::
              Pass(runs, a, importer) == Outcome(runs, if runs[at].artifact.failed then 75 else 70, [])
  {
    forall at | 0 <= at < |runs| && runs[at].id == a.id.value >= a.notBefore && Vouched(runs[at]) && runs[at].summary.commit != a.commit
      ensures Pass(runs, a, importer) == Outcome(runs, if runs[at].artifact.failed then 75 else 70, [])
    {
      FindAt(runs, at);
    }
  }

  // ---- polls ----------------------------------------------------------

  predicate AllArrived(runs: seq<RunDir>, from: nat) {
    forall i {:trigger runs[i]} | from <= i < |runs| :: Arrived(runs[i])
  }

  /** A folder that is sorted, with the cutover at `from`, and only runs that
      arrived from there on. */
  predicate ArrivedFrom(runs: seq<RunDir>, from: nat, notBefore: RunId) {
    && Sorted(runs) && from <= |runs|
    && (forall i | 0 <= i < from :: runs[i].id < notBefore)
    && (forall i | from <= i < |runs| :: runs[i].id >= notBefore) && AllArrived(runs, from)
  }

  function StatusFor(exit: int): Status {
    if exit == 0 then Ready else if exit == 4 then Partial else if exit == 70 || exit == 75 then Retryable else Failed
  }

  function ResultFor(r: RunDir, commit: string, exit: int, completed: nat, blockedBy: Option<(RunId, int)>): RunDir
    requires Vouched(r)
  {
    r.(result := Written(Payload(r.id, commit, r.summary.commit, StatusFor(exit), exit, completed, r.artifact.digest, blockedBy)))
  }

  function ExitFor(importer: Importer, id: RunId): int {
    EffectiveExit(importer(id).exit, importer(id).report)
  }

  /** The folder when the first `n` runs have their results. */
  function Drained(runs: seq<RunDir>, from: nat, commit: string, importer: Importer, n: nat): seq<RunDir>
    requires from + n <= |runs| && AllArrived(runs, from)
  {
    seq(|runs|, i requires 0 <= i < |runs| =>
      if from <= i < from + n then ResultFor(runs[i], commit, ExitFor(importer, runs[i].id), 1, None) else runs[i])
  }

  lemma ArrivedWithResult(at: nat, r: RunDir, commit: string, exit: int, completed: nat)
    requires Arrived(r) && FullSha(commit) && exit !in {INTERNAL_ERROR, TEMPFAIL}
    ensures
      var look := Inspect(at, ResultFor(r, commit, exit, completed, None), None);
      !look.Corrupt? && !Unfinished(look)
  {
  }

  lemma {:induction false} PollReaches(runs: seq<RunDir>, i: nat, k: nat, notBefore: RunId)
    requires i <= k <= |runs|
    requires forall j | i <= j < k :: runs[j].id < notBefore || (!Inspect(j, runs[j], None).Corrupt? && !Unfinished(Inspect(j, runs[j], None)))
    ensures PollFrom(runs, i, notBefore) == PollFrom(runs, k, notBefore)
    decreases k - i
  {
    if i < k {
      PollReaches(runs, i + 1, k, notBefore);
    }
  }

  lemma PollTakesTheNext(runs: seq<RunDir>, from: nat, a: Args, importer: Importer, n: nat)
    requires ArrivedFrom(runs, from, a.notBefore) && Polls(a) && Decides(importer) && from + n < |runs|
    ensures
      var at := from + n;
      PollFrom(Drained(runs, from, a.commit, importer, n), 0, a.notBefore) == Selection([CandidateOf(at, runs[at])], None, None, false)
  {
    var now := Drained(runs, from, a.commit, importer, n);
    forall j | 0 <= j < from + n
      ensures now[j].id < a.notBefore || (!Inspect(j, now[j], None).Corrupt? && !Unfinished(Inspect(j, now[j], None)))
    {
      if j >= from {
        ArrivedWithResult(j, runs[j], a.commit, ExitFor(importer, runs[j].id), 1);
      }
    }
    PollReaches(now, 0, from + n, a.notBefore);
    ArrivedIsSeen(from + n, runs[from + n], None);
  }

  lemma ConsumeOne(runs: seq<RunDir>, c: Candidate, commit: string, importer: Importer)
    requires c.at < |runs| && importer(c.id).intact
    ensures Consume(runs, [c], 0, None, commit, importer) ==
            Outcome(Put(runs, c, ResultOf(c, commit, ExitFor(importer, c.id), 1, None)), ExitFor(importer, c.id), [c.id])
  {
    if ExitFor(importer, c.id) == 0 {
      assert Consume(Put(runs, c, ResultOf(c, commit, 0, 1, None)), [c], 1, None, commit, importer)
          == Outcome(Put(runs, c, ResultOf(c, commit, 0, 1, None)), 0, []);
    }
  }

  lemma OneMoreDrained(runs: seq<RunDir>, from: nat, commit: string, importer: Importer, n: nat)
    requires from + n < |runs| && AllArrived(runs, from)
    ensures
      var at := from + n;
      Put(Drained(runs, from, commit, importer, n), CandidateOf(at, runs[at]), ResultOf(CandidateOf(at, runs[at]), commit, ExitFor(importer, runs[at].id), 1, None))
      == Drained(runs, from, commit, importer, n + 1)
  {
  }

  lemma PollDrainsTheNext(runs: seq<RunDir>, from: nat, a: Args, importer: Importer, n: nat)
    requires ArrivedFrom(runs, from, a.notBefore) && Polls(a) && Decides(importer) && from + n < |runs|
    ensures
      var at := from + n;
      Pass(Drained(runs, from, a.commit, importer, n), a, importer) ==
        Outcome(Drained(runs, from, a.commit, importer, n + 1), ExitFor(importer, runs[at].id), [runs[at].id])
  {
    PollTakesTheNext(runs, from, a, importer, n);
    ConsumeOne(Drained(runs, from, a.commit, importer, n), CandidateOf(from + n, runs[from + n]), a.commit, importer);
    OneMoreDrained(runs, from, a.commit, importer, n);
  }

  lemma ArrivedFolderIsTidy(runs: seq<RunDir>, from: nat, notBefore: RunId)
    requires ArrivedFrom(runs, from, notBefore)
    ensures Tidy(runs, notBefore)
  {
    forall i | 0 <= i < |runs| && runs[i].id >= notBefore ensures Inspect(i, runs[i], None) == Seen(CandidateOf(i, runs[i]), None) {
      ArrivedIsSeen(i, runs[i], None);
    }
  }

  lemma DrainedAreFinal(runs: seq<RunDir>, from: nat, commit: string, importer: Importer, n: nat)
    requires AllArrived(runs, from) && from + n <= |runs| && Decides(importer)
    ensures forall i | from <= i < from + n :: Final(Drained(runs, from, commit, importer, n)[i])
  {
  }

  lemma {:induction false} PollsDrain(runs: seq<RunDir>, from: nat, a: Args, importer: Importer, n: nat)
    requires ArrivedFrom(runs, from, a.notBefore) && Polls(a) && Decides(importer) && from + n <= |runs|
    ensures Repeated(runs, a, importer, n) == Drained(runs, from, a.commit, importer, n)
  {
    if n == 0 {
      assert Drained(runs, from, a.commit, importer, 0) == runs;
    } else {
      PollsDrain(runs, from, a, importer, n - 1);
      PollDrainsTheNext(runs, from, a, importer, n - 1);
    }
  }

  /** A folder of runs that arrived is tidy.  Each poll with a deciding importer
      hands it the next run, and as many polls leave each of the first runs from
      the cutover on its final result, and every other run as it was. */
  lemma ArrivedRunsDrain(runs: seq<RunDir>, from: nat, a: Args, importer: Importer, n: nat)
    requires ArrivedFrom(runs, from, a.notBefore) && Polls(a) && Decides(importer) && from + n <= |runs|
    ensures Tidy(runs, a.notBefore)
    ensures Repeated(runs, a, importer, n) == Drained(runs, from, a.commit, importer, n)
    ensures forall i | from <= i < from + n :: Final(Drained(runs, from, a.commit, importer, n)[i])
    ensures from + n < |runs| ==> Pass(Repeated(runs, a, importer, n), a, importer).imported == [runs[from + n].id]
  {
    ArrivedFolderIsTidy(runs, from, a.notBefore);
    PollsDrain(runs, from, a, importer, n);
    DrainedAreFinal(runs, from, a.commit, importer, n);
    if from + n < |runs| {
      PollDrainsTheNext(runs, from, a, importer, n);
    }
  }

  /** Between passes the folder may become any sorted one that keeps the final
      results. */
  lemma FoldersMayChange(s: State, runs: seq<RunDir>)
    requires Sorted(runs)
    requires forall id | ResultAt(s.runs, id).Written? && ResultAt(s.runs, id).payload.status != Retryable :: ResultAt(runs, id) == ResultAt(s.runs, id)
    ensures Step(s, Change(runs)) == s.(runs := runs)
  {
    assert KeepsFinals(s.runs, runs);
  }

  // ---- a requested run ------------------------------------------------

  /** The importer lands the run. */
  predicate Lands(importer: Importer, id: RunId) {
    importer(id).intact && ExitFor(importer, id) == 0
  }

  /** The folder when the first `n` runs were landed in one pass. */
  function CaughtUp(runs: seq<RunDir>, from: nat, commit: string, n: nat): seq<RunDir>
    requires from + n <= |runs| && AllArrived(runs, from)
  {
    seq(|runs|, i requires 0 <= i < |runs| => if from <= i < from + n then ResultFor(runs[i], commit, 0, i - from + 1, None) else runs[i])
  }

  function Candidates(runs: seq<RunDir>, from: nat, n: nat): (chosen: seq<Candidate>)
    requires from + n <= |runs| && AllArrived(runs, from)
    ensures |chosen| == n && forall m | 0 <= m < n :: chosen[m] == CandidateOf(from + m, runs[from + m])
  {
    seq(n, i requires 0 <= i < n => CandidateOf(from + i, runs[from + i]))
  }

  function Ids(runs: seq<RunDir>, from: nat, n: nat): seq<RunId>
    requires from + n <= |runs|
  {
    seq<RunId>(n, i requires 0 <= i < n => runs[from + i].id)
  }

  lemma {:induction false} BacklogIsEverythingBefore(runs: seq<RunDir>, from: nat, n: nat, notBefore: RunId, id: RunId)
    requires ArrivedFrom(runs, from, notBefore) && from + n <= |runs| && forall i | 0 <= i < from + n :: runs[i].id < id
    ensures BacklogUpTo(runs, from + n, notBefore, id) == Ok(Candidates(runs, from, n))
  {
    if n == 0 {
      NoBacklogBefore(runs, from, notBefore, id);
    } else {
      BacklogIsEverythingBefore(runs, from, n - 1, notBefore, id);
      ArrivedIsSeen(from + n - 1, runs[from + n - 1], None);
      assert Candidates(runs, from, n) == Candidates(runs, from, n - 1) + [CandidateOf(from + n - 1, runs[from + n - 1])];
    }
  }

  lemma {:induction false} NoBacklogBefore(runs: seq<RunDir>, n: nat, notBefore: RunId, id: RunId)
    requires n <= |runs| && forall i | 0 <= i < n :: runs[i].id < notBefore
    ensures BacklogUpTo(runs, n, notBefore, id) == Ok([])
  {
    if n > 0 {
      NoBacklogBefore(runs, n - 1, notBefore, id);
    }
  }

  /** A request for a run takes every run from the cutover up to it. */
  lemma RequestTakesAll(runs: seq<RunDir>, from: nat, n: nat, notBefore: RunId)
    requires ArrivedFrom(runs, from, notBefore) && from + n < |runs|
    ensures
      var r := runs[from + n];
      Select(runs, r.summary.commit, notBefore, Some(r.id)) ==
        Selection(Candidates(runs, from, n + 1), Some(CandidateOf(from + n, r)), None, false)
  {
    var at := from + n;
    FindAt(runs, at);
    ArrivedIsSeen(at, runs[at], Some(runs[at].summary.commit));
    BacklogIsEverythingBefore(runs, from, n, notBefore, runs[at].id);
    BacklogStops(runs, at, |runs|, notBefore, runs[at].id);
    assert Candidates(runs, from, n + 1) == Candidates(runs, from, n) + [CandidateOf(at, runs[at])];
  }

  lemma OneMoreCaughtUp(runs: seq<RunDir>, from: nat, commit: string, k: nat)
    requires from + k < |runs| && AllArrived(runs, from)
    ensures
      var c := CandidateOf(from + k, runs[from + k]);
      Put(CaughtUp(runs, from, commit, k), c, ResultOf(c, commit, 0, k + 1, None)) == CaughtUp(runs, from, commit, k + 1)
  {
  }

  lemma ConsumeLanding(runs: seq<RunDir>, chosen: seq<Candidate>, k: nat, requested: Option<Candidate>, commit: string, importer: Importer,
                       rest: Outcome)
    requires k < |chosen| && InFolder(|runs|, chosen, requested) && Lands(importer, chosen[k].id)
    requires rest == Consume(Put(runs, chosen[k], ResultOf(chosen[k], commit, 0, k + 1, None)), chosen, k + 1, requested, commit, importer)
    ensures Consume(runs, chosen, k, requested, commit, importer) == rest.(imported := [chosen[k].id] + rest.imported)
  {
  }

  lemma CandidatesInFolder(runs: seq<RunDir>, from: nat, n: nat)
    requires from + n < |runs| && AllArrived(runs, from)
    ensures InFolder(|runs|, Candidates(runs, from, n + 1), Some(CandidateOf(from + n, runs[from + n])))
  {
  }

  /** The pass from the k-th run on. */
  function RestOfPass(runs: seq<RunDir>, from: nat, n: nat, k: nat, commit: string, importer: Importer): Outcome
    requires from + n < |runs| && k <= n + 1 && AllArrived(runs, from)
  {
    CandidatesInFolder(runs, from, n);
    Consume(CaughtUp(runs, from, commit, k), Candidates(runs, from, n + 1), k, Some(CandidateOf(from + n, runs[from + n])), commit, importer)
  }

  lemma OneMoreLanding(runs: seq<RunDir>, from: nat, n: nat, k: nat, commit: string, importer: Importer)
    requires from + n < |runs| && k <= n && AllArrived(runs, from) && Lands(importer, runs[from + k].id)
    ensures
      var rest := RestOfPass(runs, from, n, k + 1, commit, importer);
      RestOfPass(runs, from, n, k, commit, importer) == rest.(imported := [runs[from + k].id] + rest.imported)
  {
    OneMoreCaughtUp(runs, from, commit, k);
    CandidatesInFolder(runs, from, n);
    var chosen := Candidates(runs, from, n + 1);
    ConsumeLanding(CaughtUp(runs, from, commit, k), chosen, k, Some(CandidateOf(from + n, runs[from + n])), commit, importer,
                   RestOfPass(runs, from, n, k + 1, commit, importer));
  }

  /** The outcome of a rest with some runs handed over before it. */
  predicate Preceded(out: Outcome, ids: seq<RunId>, rest: Outcome) {
    out == rest.(imported := ids + rest.imported)
  }

  lemma {:induction false} PrecededInTurn(outs: seq<Outcome>, ids: seq<RunId>, k: nat, m: nat)
    requires k <= m < |outs| && m <= |ids| && forall i | k <= i < m :: Preceded(outs[i], [ids[i]], outs[i + 1])
    ensures Preceded(outs[k], ids[k..m], outs[m])
    decreases m - k
  {
    if k < m {
      PrecededInTurn(outs, ids, k + 1, m);
      assert [ids[k]] + (ids[k + 1..m] + outs[m].imported) == ids[k..m] + outs[m].imported;
    }
  }

  /** The rests of the pass, from each of the runs on. */
  function Rests(runs: seq<RunDir>, from: nat, n: nat, commit: string, importer: Importer): (outs: seq<Outcome>)
    requires from + n < |runs| && AllArrived(runs, from)
    ensures |outs| == n + 2 && forall k | 0 <= k < n + 2 :: outs[k] == RestOfPass(runs, from, n, k, commit, importer)
  {
    seq(n + 2, k requires 0 <= k < n + 2 => RestOfPass(runs, from, n, k, commit, importer))
  }

  /** What landed before the `m`-th run comes first, whatever the rest does. */
  lemma LandedBefore(runs: seq<RunDir>, from: nat, n: nat, m: nat, commit: string, importer: Importer)
    requires from + n < |runs| && m <= n + 1 && AllArrived(runs, from)
    requires forall i | from <= i < from + m :: Lands(importer, runs[i].id)
    ensures Preceded(RestOfPass(runs, from, n, 0, commit, importer), Ids(runs, from, m), RestOfPass(runs, from, n, m, commit, importer))
  {
    var outs, ids := Rests(runs, from, n, commit, importer), Ids(runs, from, m);
    forall i | 0 <= i < m ensures Preceded(outs[i], [ids[i]], outs[i + 1]) {
      OneMoreLanding(runs, from, n, i, commit, importer);
    }
    PrecededInTurn(outs, ids, 0, m);
    assert ids[0..m] == ids;
  }

  predicate Requests(runs: seq<RunDir>, from: nat, n: nat, a: Args)
    requires from + n < |runs|
  {
    && ArrivedFrom(runs, from, a.notBefore) && FullSha(a.commit) && !a.dryRun
    && a.id == Some(runs[from + n].id) && a.commit == runs[from + n].summary.commit
  }

  lemma RequestIsRestOfPass(runs: seq<RunDir>, from: nat, n: nat, a: Args, importer: Importer)
    requires from + n < |runs| && Requests(runs, from, n, a)
    ensures Pass(runs, a, importer) == RestOfPass(runs, from, n, 0, a.commit, importer)
  {
    RequestTakesAll(runs, from, n, a.notBefore);
    assert CaughtUp(runs, from, a.commit, 0) == runs;
  }

  /** A requested pass with a landing importer makes every run from the cutover up
      to the requested one ready, in order, and ends well. */
  lemma RequestCatchesUp(runs: seq<RunDir>, from: nat, n: nat, a: Args, importer: Importer)
    requires from + n < |runs| && Requests(runs, from, n, a)
    requires forall i | from <= i <= from + n :: Lands(importer, runs[i].id)
    ensures Pass(runs, a, importer) == Outcome(CaughtUp(runs, from, a.commit, n + 1), 0, Ids(runs, from, n + 1))
  {
    RequestIsRestOfPass(runs, from, n, a, importer);
    LandedBefore(runs, from, n, n + 1, a.commit, importer);
    CandidatesInFolder(runs, from, n);
    assert Ids(runs, from, n + 1) + [] == Ids(runs, from, n + 1);
  }

  /** The folder when the `m`-th run stopped the pass: the runs before it landed,
      it has its result, and the requested run behind it is blocked by it. */
  function StoppedAt(runs: seq<RunDir>, from: nat, n: nat, m: nat, commit: string, exit: int, completed: nat): seq<RunDir>
    requires from + n < |runs| && m <= n && AllArrived(runs, from)
  {
    var mine := CaughtUp(runs, from, commit, m)[from + m := ResultFor(runs[from + m], commit, exit, completed, None)];
    if m == n then mine
    else mine[from + n := ResultFor(runs[from + n], commit, 70, completed, Some((runs[from + m].id, exit)))]
  }

  lemma StopIsExact(runs: seq<RunDir>, from: nat, n: nat, m: nat, commit: string, exit: int, completed: nat)
    requires from + n < |runs| && m <= n && AllArrived(runs, from) && (m < n ==> runs[from + m].id < runs[from + n].id)
    ensures
      Stopped(CaughtUp(runs, from, commit, m), CandidateOf(from + m, runs[from + m]), Some(CandidateOf(from + n, runs[from + n])), commit, exit, completed)
      == (StoppedAt(runs, from, n, m, commit, exit, completed), if m == n then exit else 70)
  {
  }

  /** The exit of a run that did not land, and the number of runs handed over by
      then: an artifact that changed is not handed over, and is to be retried. */
  function StopExit(importer: Importer, id: RunId): int {
    if importer(id).intact then ExitFor(importer, id) else 70
  }

  function Tried(importer: Importer, id: RunId, m: nat): nat {
    if importer(id).intact then m + 1 else m
  }

  lemma ConsumeStops(runs: seq<RunDir>, chosen: seq<Candidate>, k: nat, requested: Option<Candidate>, commit: string, importer: Importer)
    requires k < |chosen| && InFolder(|runs|, chosen, requested) && !Lands(importer, chosen[k].id)
    ensures
      var id := chosen[k].id;
      var (left, code) := Stopped(runs, chosen[k], requested, commit, StopExit(importer, id), Tried(importer, id, k));
      Consume(runs, chosen, k, requested, commit, importer) == Outcome(left, code, if importer(id).intact then [id] else [])
  {
  }

  lemma RestStops(runs: seq<RunDir>, from: nat, n: nat, m: nat, commit: string, importer: Importer)
    requires from + n < |runs| && m <= n && AllArrived(runs, from) && (m < n ==> runs[from + m].id < runs[from + n].id)
    requires !Lands(importer, runs[from + m].id)
    ensures
      var id := runs[from + m].id;
      RestOfPass(runs, from, n, m, commit, importer) ==
        Outcome(StoppedAt(runs, from, n, m, commit, StopExit(importer, id), Tried(importer, id, m)),
                if m == n then StopExit(importer, id) else 70, if importer(id).intact then [id] else [])
  {
    var id := runs[from + m].id;
    CandidatesInFolder(runs, from, n);
    StopIsExact(runs, from, n, m, commit, StopExit(importer, id), Tried(importer, id, m));
    ConsumeStops(CaughtUp(runs, from, commit, m), Candidates(runs, from, n + 1), m, Some(CandidateOf(from + n, runs[from + n])), commit, importer);
  }

  lemma IdsSoFar(runs: seq<RunDir>, from: nat, m: nat)
    requires from + m < |runs|
    ensures Ids(runs, from, m) + [runs[from + m].id] == Ids(runs, from, m + 1) && Ids(runs, from, m) + [] == Ids(runs, from, m)
  {
  }

  /** Otherwise the first run that does not land stops the pass, with its exit
      code, and a requested run behind it is blocked, to be retried. */
  lemma RequestStopsAtAFailure(runs: seq<RunDir>, from: nat, n: nat, m: nat, a: Args, importer: Importer)
    requires from + n < |runs| && m <= n && Requests(runs, from, n, a)
    requires (forall i | from <= i < from + m :: Lands(importer, runs[i].id)) && !Lands(importer, runs[from + m].id)
    ensures
      var id := runs[from + m].id;
      Pass(runs, a, importer) ==
        Outcome(StoppedAt(runs, from, n, m, a.commit, StopExit(importer, id), Tried(importer, id, m)),
                if m == n then StopExit(importer, id) else 70, Ids(runs, from, Tried(importer, id, m)))
  {
    RequestIsRestOfPass(runs, from, n, a, importer);
    LandedBefore(runs, from, n, m, a.commit, importer);
    RestStops(runs, from, n, m, a.commit, importer);
    IdsSoFar(runs, from, m);
  }
}
