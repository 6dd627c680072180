/** The capture-folder consumer: one folder of Windows capture runs, drained
    oldest first, one result file a run.

    A run id is its rank among all directory names, so `<` on ids is the order
    in which the directories are listed.  The digest of a result file stands for
    its content. */
module Capture {
  import opened Text

  const INTERNAL_ERROR := 70
  const TEMPFAIL := 75
  const DUPLICATE := 64
  const USAGE := 2

  type RunId = nat

  // ---- what a run directory holds -------------------------------------

  /** `failed` is a capture artifact that verifiably carries no article data;
      `identity` is its ingest run id and content digest, when both are there. */
  datatype Artifact =
    | NoArtifact
    | OddArtifact
    | Artifact(digest: string, failed: bool, identity: Option<(string, string)>)

  datatype Status = Ready | Partial | Retryable | Failed

  datatype Payload = Payload(
    id: RunId, sourceCommit: string, captureCommit: string, status: Status, exit: int,
    completed: int, through: string, blockedBy: Option<(RunId, int)>)

  datatype ResultFile = NoResult | BadResult | Written(payload: Payload)

  /** A digest recorded in a summary: of a result, or of anything else. */
  datatype Stamp = StampOf(payload: Payload) | OtherStamp

  datatype Summary =
    | NoSummary
    | ForeignSummary
    | Summary(
        idMatches: bool, captureExit: Option<int>, commit: string, ready: bool, published: bool, artifactDigest: string,
        errorCode: Option<string>, exitCode: Option<int>, resultStamp: Option<Stamp>,
        consumerStatus: Option<string>, legacyKeys: bool)

  datatype RunDir = RunDir(id: RunId, named: bool, plain: bool, summary: Summary, artifact: Artifact, result: ResultFile)

  datatype Candidate = Candidate(at: nat, id: RunId, commit: string, digest: string, ingest: (string, string))

  datatype Look = Corrupt | Skip | Seen(candidate: Candidate, result: Option<Payload>)

  predicate FullSha(s: string) {
    |s| == 40 && forall i | 0 <= i < 40 :: '0' <= s[i] <= '9' || 'a' <= s[i] <= 'f'
  }

  // ---- result files ---------------------------------------------------

  predicate StatusFits(status: Status, exit: int) {
    match status
    case Ready => exit == 0
    case Partial => exit == 4
    case Retryable => exit in {INTERNAL_ERROR, TEMPFAIL}
    case Failed => exit !in {0, 4, INTERNAL_ERROR, TEMPFAIL}
  }

  predicate Acceptable(c: Candidate, p: Payload) {
    && p.id == c.id && FullSha(p.sourceCommit) && p.captureCommit == c.commit
    && p.through == c.digest && p.completed >= 0 && StatusFits(p.status, p.exit)
  }

  function ReadResult(c: Candidate, f: ResultFile): Result<Option<Payload>, ()> {
    match f
    case NoResult => Ok(None)
    case BadResult => Err(())
    case Written(p) => if Acceptable(c, p) then Ok(Some(p)) else Err(())
  }

  function StatusOf(exit: int): Status {
    if exit == 0 then Ready
    else if exit == 4 then Partial
    else if exit in {INTERNAL_ERROR, TEMPFAIL} then Retryable
    else Failed
  }

  function ResultOf(c: Candidate, commit: string, exit: int, completed: nat, blockedBy: Option<(RunId, int)>): Payload {
    Payload(c.id, commit, c.commit, StatusOf(exit), exit, completed, c.digest, blockedBy)
  }

  /** Whatever is written for a candidate is read back as that. */
  lemma WrittenResultsAreRead(c: Candidate, commit: string, exit: int, completed: nat, blockedBy: Option<(RunId, int)>)
    requires FullSha(commit)
    ensures
      var p := ResultOf(c, commit, exit, completed, blockedBy);
      ReadResult(c, Written(p)) == Ok(Some(p))
  {
  }

  // ---- looking at one run ---------------------------------------------

  predicate Superseded(s: Summary)
    requires s.Summary?
  {
    s.errorCode == Some("consumer") && s.consumerStatus == Some("retryable")
    && s.exitCode.Some? && s.exitCode.value in {INTERNAL_ERROR, TEMPFAIL}
  }

  predicate AwaitsConsumer(s: Summary)
    requires s.Summary?
  {
    s.resultStamp.None? &&
    ((!s.legacyKeys && s.errorCode.None? && s.exitCode == Some(0))
     || (s.errorCode.Some? && s.errorCode.value in {"consumer", "consumer_pending", "consumer_protocol", "wsl_transport"}
         && s.exitCode.Some? && s.exitCode.value != 0))
  }

  /** A run whose artifact is published and whose summary vouches for it. */
  function InspectCapture(at: nat, r: RunDir): Look
    requires r.summary.Summary?
  {
    if !r.artifact.Artifact? || r.summary.artifactDigest != r.artifact.digest || r.artifact.identity.None? then Corrupt
    else
      var c := Candidate(at, r.id, r.summary.commit, r.artifact.digest, r.artifact.identity.value);
      match ReadResult(c, r.result)
      case Err(_) => Corrupt
      case Ok(Some(p)) =>
        if r.summary.resultStamp.Some? && r.summary.resultStamp != Some(StampOf(p)) && !Superseded(r.summary)
        then Corrupt else Seen(c, Some(p))
      case Ok(None) => if AwaitsConsumer(r.summary) then Seen(c, None) else Corrupt
  }

  function Inspect(at: nat, r: RunDir, expected: Option<string>): Look {
    if !r.named then Skip
    else if !r.plain then Corrupt
    else if !r.summary.Summary? then (if r.artifact.NoArtifact? then Skip else Corrupt)
    else
      var s := r.summary;
      var harmless := r.artifact.NoArtifact? || (r.artifact.Artifact? && r.artifact.failed);
      if !(s.idMatches && s.captureExit.Some? && FullSha(s.commit) && (expected.None? || s.commit == expected.value)) then
        (if harmless then Skip else Corrupt)
      else if s.captureExit != Some(0) || !s.ready || !s.published then
        (if s.errorCode == Some("capture_pending") && !harmless then Corrupt else Skip)
      else InspectCapture(at, r)
  }

  predicate Unfinished(look: Look) {
    look.Seen? && (look.result.None? || look.result.value.status.Retryable?)
  }

  /** Ready, partial and failed results are final. */
  predicate Final(r: RunDir) {
    r.result.Written? && !r.result.payload.status.Retryable?
  }

  lemma UnfinishedIsNotFinal(at: nat, r: RunDir, expected: Option<string>)
    requires Unfinished(Inspect(at, r, expected))
    ensures !Final(r) && Inspect(at, r, None) == Inspect(at, r, expected)
    ensures Inspect(at, r, expected).candidate.at == at && Inspect(at, r, expected).candidate.id == r.id
  {
  }

  /** After a result is written, the run is found corrupt exactly when its
      summary carries the digest of another result and does not say that one was
      retryable.  Otherwise the result is what the next look sees. */
  lemma NextLookSeesTheResult(at: nat, r: RunDir, p: Payload)
    requires Unfinished(Inspect(at, r, None)) && Acceptable(Inspect(at, r, None).candidate, p)
    ensures
      var next := Inspect(at, r.(result := Written(p)), None);
      var stale := r.summary.Summary? && r.summary.resultStamp.Some?
                   && r.summary.resultStamp != Some(StampOf(p)) && !Superseded(r.summary);
      && (next.Corrupt? <==> stale)
      && (!stale ==> next == Seen(Inspect(at, r, None).candidate, Some(p)))
  {
  }

  // ---- the importer's verdict -----------------------------------------

  /** The importer's report, when it is one: `exact` says it names the artifact. */
  datatype Report =
    | NoReport
    | Report(exact: bool, status: string, completion: string,
             originalExit: Option<int>, originalStatus: string, originalCompletion: string)

  predicate Landed(status: string) {
    status in {"succeeded", "no_change"}
  }

  function EffectiveExit(exit: int, report: Report): int {
    if report.NoReport? then (if exit != 0 then exit else INTERNAL_ERROR)
    else if exit == 0 then
      (if report.exact && Landed(report.status) && report.completion == "ready" then 0 else INTERNAL_ERROR)
    else if exit == 4 then
      (if report.exact && Landed(report.status) && report.completion == "partial" then 4 else INTERNAL_ERROR)
    else if exit != DUPLICATE || report.status != "duplicate" then exit
    else if !report.exact || report.originalExit.None? then INTERNAL_ERROR
    else
      var original := report.originalExit.value;
      if original == 0 && !(Landed(report.originalStatus) && report.originalCompletion == "ready") then INTERNAL_ERROR
      else if original == 4 && !(Landed(report.originalStatus) && report.originalCompletion == "partial") then INTERNAL_ERROR
      else if original == DUPLICATE then INTERNAL_ERROR
      else original
  }

  /** The importer landed exactly this artifact, now or when it first saw it. */
  predicate Proven(exit: int, report: Report, code: int, completion: string) {
    && report.Report? && report.exact
    && ((exit == code && report.status in {"succeeded", "no_change"} && report.completion == completion)
        || (exit == 64 && report.status == "duplicate" && report.originalExit == Some(code)
            && report.originalStatus in {"succeeded", "no_change"} && report.originalCompletion == completion))
  }

  /** Success needs proof.  Partial success needs it too, except that exit 4
      with no report at all is taken at its word.  Any other failure is passed
      on, and a duplicate counts as what it duplicates. */
  lemma ExitsAreProven(exit: int, report: Report)
    ensures EffectiveExit(exit, report) == 0 <==> Proven(exit, report, 0, "ready")
    ensures EffectiveExit(exit, report) == 4 <==> Proven(exit, report, 4, "partial") || (exit == 4 && report.NoReport?)
    ensures exit !in {0, 4, DUPLICATE} ==> EffectiveExit(exit, report) == exit
    ensures report.Report? && report.status == "duplicate" ==> EffectiveExit(DUPLICATE, report) != DUPLICATE
  {
  }

  datatype Import = Import(intact: bool, exit: int, report: Report)

  /** What the importer would do with each run in this pass. */
  type Importer = RunId -> Import

  // ---- selection ------------------------------------------------------

  datatype Selection = Selection(chosen: seq<Candidate>, requested: Option<Candidate>, existing: Option<Payload>, corrupt: bool)

  const NOTHING := Selection([], None, None, false)

  /** The folder lists its runs in order. */
  predicate Sorted(runs: seq<RunDir>) {
    forall i, j | 0 <= i < j < |runs| :: runs[i].id < runs[j].id
  }

  function PollFrom(runs: seq<RunDir>, i: nat, notBefore: RunId): Selection
    requires i <= |runs|
    decreases |runs| - i
  {
    if i == |runs| then NOTHING
    else if runs[i].id < notBefore then PollFrom(runs, i + 1, notBefore)
    else
      var look := Inspect(i, runs[i], None);
      if look.Corrupt? then NOTHING.(corrupt := true)
      else if Unfinished(look) then NOTHING.(chosen := [look.candidate])
      else PollFrom(runs, i + 1, notBefore)
  }

  /** Every unfinished run before the requested one, unless one is corrupt. */
  function BacklogUpTo(runs: seq<RunDir>, i: nat, notBefore: RunId, id: RunId): Result<seq<Candidate>, ()>
    requires i <= |runs|
  {
    if i == 0 then Ok([])
    else
      var rest := BacklogUpTo(runs, i - 1, notBefore, id);
      var r := runs[i - 1];
      if rest.Err? || r.id < notBefore || r.id >= id then rest
      else
        var look := Inspect(i - 1, r, None);
        if look.Corrupt? then Err(())
        else if Unfinished(look) then Ok(rest.value + [look.candidate])
        else rest
  }

  function Find(runs: seq<RunDir>, id: RunId): (at: nat)
    ensures at <= |runs| && (at < |runs| ==> runs[at].id == id)
    ensures forall i | 0 <= i < at :: runs[i].id != id
  {
    FindFrom(runs, 0, id)
  }

  function FindFrom(runs: seq<RunDir>, i: nat, id: RunId): (at: nat)
    requires i <= |runs|
    ensures i <= at <= |runs| && (at < |runs| ==> runs[at].id == id)
    ensures forall j | i <= j < at :: runs[j].id != id
    decreases |runs| - i
  {
    if i == |runs| || runs[i].id == id then i else FindFrom(runs, i + 1, id)
  }

  function Request(runs: seq<RunDir>, commit: string, notBefore: RunId, id: RunId): Selection {
    var at := Find(runs, id);
    if id < notBefore || at == |runs| then NOTHING
    else
      var look := Inspect(at, runs[at], Some(commit));
      if look.Corrupt? then NOTHING.(corrupt := true)
      else if look.Skip? then NOTHING
      else if !Unfinished(look) then Selection([], Some(look.candidate), look.result, false)
      else
        match BacklogUpTo(runs, |runs|, notBefore, id)
        case Err(_) => Selection([], Some(look.candidate), None, true)
        case Ok(backlog) => Selection(backlog + [look.candidate], Some(look.candidate), None, false)
  }

  function Select(runs: seq<RunDir>, commit: string, notBefore: RunId, id: Option<RunId>): Selection {
    if id.None? then PollFrom(runs, 0, notBefore) else Request(runs, commit, notBefore, id.value)
  }

  // ---- one pass -------------------------------------------------------

  function Put(runs: seq<RunDir>, c: Candidate, p: Payload): seq<RunDir>
    requires c.at < |runs|
  {
    runs[c.at := runs[c.at].(result := Written(p))]
  }

  /** `imported` lists the runs handed to the importer. */
  datatype Outcome = Outcome(runs: seq<RunDir>, exit: int, imported: seq<RunId>)

  function Stopped(runs: seq<RunDir>, c: Candidate, requested: Option<Candidate>, commit: string, exit: int, completed: nat): (seq<RunDir>, int)
    requires c.at < |runs| && (requested.Some? ==> requested.value.at < |runs|)
  {
    var mine := Put(runs, c, ResultOf(c, commit, exit, completed, None));
    if requested.Some? && c.id != requested.value.id then
      (Put(mine, requested.value, ResultOf(requested.value, commit, INTERNAL_ERROR, completed, Some((c.id, exit)))), INTERNAL_ERROR)
    else (mine, exit)
  }

  predicate InFolder(n: nat, chosen: seq<Candidate>, requested: Option<Candidate>) {
    (forall m | 0 <= m < |chosen| :: chosen[m].at < n) && (requested.Some? ==> requested.value.at < n)
  }

  function Consume(runs: seq<RunDir>, chosen: seq<Candidate>, k: nat, requested: Option<Candidate>, commit: string, importer: Importer): (out: Outcome)
    requires k <= |chosen| && InFolder(|runs|, chosen, requested)
    ensures |out.runs| == |runs|
    decreases |chosen| - k
  {
    if k == |chosen| then Outcome(runs, 0, [])
    else
      var c := chosen[k];
      var got := importer(c.id);
      if !got.intact then
        var (left, exit) := Stopped(runs, c, requested, commit, INTERNAL_ERROR, k);
        Outcome(left, exit, [])
      else
        var exit := EffectiveExit(got.exit, got.report);
        if exit != 0 then
          var (left, code) := Stopped(runs, c, requested, commit, exit, k + 1);
          Outcome(left, code, [c.id])
        else
          var rest := Consume(Put(runs, c, ResultOf(c, commit, 0, k + 1, None)), chosen, k + 1, requested, commit, importer);
          rest.(imported := [c.id] + rest.imported)
  }

  datatype Args = Args(commit: string, notBefore: RunId, id: Option<RunId>, dryRun: bool)

  function Pass(runs: seq<RunDir>, a: Args, importer: Importer): (out: Outcome)
    ensures |out.runs| == |runs|
  {
    if !FullSha(a.commit) then Outcome(runs, USAGE, [])
    else
      var sel := Select(runs, a.commit, a.notBefore, a.id);
      SelectionIsInFolder(runs, a.commit, a.notBefore, a.id);
      if sel.existing.Some? then Outcome(runs, sel.existing.value.exit, [])
      else if sel.corrupt then
        if sel.requested.None? then Outcome(runs, INTERNAL_ERROR, [])
        else Outcome(Put(runs, sel.requested.value, ResultOf(sel.requested.value, a.commit, INTERNAL_ERROR, 0, None)), INTERNAL_ERROR, [])
      else if sel.chosen == [] then Outcome(runs, if a.id.Some? then TEMPFAIL else 0, [])
      else if a.dryRun then Outcome(runs, 0, [])
      else Consume(runs, sel.chosen, 0, sel.requested, a.commit, importer)
  }

  class CaptureFolder {
    var runs: seq<RunDir>

    constructor (runs: seq<RunDir>)
      ensures this.runs == runs
    {
      this.runs := runs;
    }

    method Poll(notBefore: RunId) returns (sel: Selection)
      ensures sel == PollFrom(runs, 0, notBefore)
    {
      var i := 0;
      while i < |runs|
        invariant 0 <= i <= |runs|
        invariant PollFrom(runs, i, notBefore) == PollFrom(runs, 0, notBefore)
      {
        if runs[i].id >= notBefore {
          var look := Inspect(i, runs[i], None);
          if look.Corrupt? {
            return Selection([], None, None, true);
          }
          if Unfinished(look) {
            return Selection([look.candidate], None, None, false);
          }
        }
        i := i + 1;
      }
      sel := Selection([], None, None, false);
    }

    method PendingArtifacts(commit: string, notBefore: RunId, id: Option<RunId>) returns (sel: Selection)
      requires Sorted(runs)
      ensures sel == Select(runs, commit, notBefore, id)
    {
      sel := NOTHING;
      if id.None? {
        sel := Poll(notBefore);
        return;
      }
      var at := Find(runs, id.value);
      if id.value < notBefore || at == |runs| {
        return;
      }
      var look := Inspect(at, runs[at], Some(commit));
      match look {
        case Corrupt => return Selection([], None, None, true);
        case Skip => return;
        case Seen(requested, result) =>
          if result.Some? && !result.value.status.Retryable? {
            return Selection([], Some(requested), result, false);
          }
          var artifacts := [];
          var i := 0;
          while i < |runs|
            invariant 0 <= i <= |runs|
            invariant BacklogUpTo(runs, i, notBefore, id.value) == Ok(artifacts)
          {
            if runs[i].id >= id.value {
              BacklogStops(runs, i, |runs|, notBefore, id.value);
              break;
            }
            if runs[i].id >= notBefore {
              var seen := Inspect(i, runs[i], None);
              if seen.Corrupt? {
                BacklogFails(runs, i + 1, |runs|, notBefore, id.value);
                return Selection([], Some(requested), None, true);
              }
              if Unfinished(seen) {
                artifacts := artifacts + [seen.candidate];
              }
            }
            i := i + 1;
          }
          sel := Selection(artifacts + [requested], Some(requested), None, false);
      }
    }

    method WriteResult(c: Candidate, commit: string, exit: int, completed: nat, blockedBy: Option<(RunId, int)>)
      requires c.at < |runs|
      modifies this
      ensures runs == Put(old(runs), c, ResultOf(c, commit, exit, completed, blockedBy))
    {
      var status :=
        if exit == 0 then Ready
        else if exit == 4 then Partial
        else if exit == INTERNAL_ERROR || exit == TEMPFAIL then Retryable
        else Failed;
      runs := runs[c.at := runs[c.at].(result := Written(Payload(c.id, commit, c.commit, status, exit, completed, c.digest, blockedBy)))];
    }

    method StopAfter(c: Candidate, requested: Option<Candidate>, commit: string, exit: int, completed: nat) returns (code: int)
      requires c.at < |runs| && (requested.Some? ==> requested.value.at < |runs|)
      modifies this
      ensures (runs, code) == Stopped(old(runs), c, requested, commit, exit, completed)
    {
      WriteResult(c, commit, exit, completed, None);
      code := exit;
      if requested.Some? && c.id != requested.value.id {
        WriteResult(requested.value, commit, INTERNAL_ERROR, completed, Some((c.id, exit)));
        code := INTERNAL_ERROR;
      }
    }

    method RunPass(a: Args, importer: Importer) returns (code: int, imported: seq<RunId>)
      requires Sorted(runs)
      modifies this
      ensures Outcome(runs, code, imported) == Pass(old(runs), a, importer)
    {
      imported := [];
      if !FullSha(a.commit) {
        return USAGE, [];
      }
      var sel := PendingArtifacts(a.commit, a.notBefore, a.id);
      SelectionIsInFolder(runs, a.commit, a.notBefore, a.id);
      if sel.existing.Some? {
        return sel.existing.value.exit, [];
      }
      if sel.corrupt {
        if sel.requested.Some? {
          WriteResult(sel.requested.value, a.commit, INTERNAL_ERROR, 0, None);
        }
        return INTERNAL_ERROR, [];
      }
      if sel.chosen == [] {
        return if a.id.Some? then TEMPFAIL else 0, [];
      }
      if a.dryRun {
        return 0, [];
      }
      code, imported := ImportAll(sel.chosen, sel.requested, a.commit, importer);
    }

    /** The importing loop of a pass. */
    method ImportAll(chosen: seq<Candidate>, requested: Option<Candidate>, commit: string, importer: Importer)
      returns (code: int, imported: seq<RunId>)
      requires InFolder(|runs|, chosen, requested)
      modifies this
      ensures Outcome(runs, code, imported) == Consume(old(runs), chosen, 0, requested, commit, importer)
    {
      code, imported := 0, [];
      var completed := 0;
      ghost var whole := Consume(runs, chosen, 0, requested, commit, importer);
      while completed < |chosen|
        invariant completed <= |chosen| && |runs| == |old(runs)| && code == 0
        invariant
          var rest := Consume(runs, chosen, completed, requested, commit, importer);
          whole == rest.(imported := imported + rest.imported)
      {
        var c := chosen[completed];
        var got := importer(c.id);
        if !got.intact {
          code := StopAfter(c, requested, commit, INTERNAL_ERROR, completed);
          return;
        }
        var exit := EffectiveExit(got.exit, got.report);
        imported := imported + [c.id];
        completed := completed + 1;
        if exit != 0 {
          code := StopAfter(c, requested, commit, exit, completed);
          return;
        }
        WriteResult(c, commit, 0, completed, None);
      }
    }
  }

  lemma {:induction false} BacklogStops(runs: seq<RunDir>, i: nat, n: nat, notBefore: RunId, id: RunId)
    requires i <= n <= |runs| && Sorted(runs) && (i < |runs| ==> runs[i].id >= id)
    ensures BacklogUpTo(runs, n, notBefore, id) == BacklogUpTo(runs, i, notBefore, id)
    decreases n
  {
    if i < n {
      BacklogStops(runs, i, n - 1, notBefore, id);
      assert runs[n - 1].id >= runs[i].id;
    }
  }

  lemma {:induction false} BacklogFails(runs: seq<RunDir>, i: nat, n: nat, notBefore: RunId, id: RunId)
    requires i <= n <= |runs| && BacklogUpTo(runs, i, notBefore, id).Err?
    ensures BacklogUpTo(runs, n, notBefore, id).Err?
    decreases n
  {
    if i < n {
      BacklogFails(runs, i, n - 1, notBefore, id);
    }
  }

  // ---- what a selection is --------------------------------------------

  /** The position of a candidate holds an unfinished run that looks like it. */
  predicate Chosen(runs: seq<RunDir>, c: Candidate) {
    c.at < |runs| && Unfinished(Inspect(c.at, runs[c.at], None)) && Inspect(c.at, runs[c.at], None).candidate == c
  }

  /** Nothing before position `n`, from the cutover on, is left unfinished. */
  predicate Drained(runs: seq<RunDir>, n: nat, notBefore: RunId, except: seq<Candidate>)
    requires n <= |runs|
  {
    forall i | 0 <= i < n && runs[i].id >= notBefore ::
      var look := Inspect(i, runs[i], None);
      look.Skip? || (look.Seen? && Unfinished(look) && look.candidate in except) || (look.Seen? && !Unfinished(look))
  }

  /** The chosen runs are unfinished, in order, the requested one last, and every
      other eligible run before the last of them is final already. */
  predicate WellChosen(runs: seq<RunDir>, sel: Selection, notBefore: RunId) {
    && (forall m | 0 <= m < |sel.chosen| :: Chosen(runs, sel.chosen[m]))
    && (forall m, n | 0 <= m < n < |sel.chosen| :: sel.chosen[m].at < sel.chosen[n].at)
    && (sel.requested.Some? && sel.existing.None? ==> Chosen(runs, sel.requested.value))
    && (sel.requested.Some? && sel.chosen != [] ==> sel.chosen[|sel.chosen| - 1] == sel.requested.value)
    && (sel.requested.None? ==> |sel.chosen| <= 1)
    && (sel.chosen != [] ==> Drained(runs, sel.chosen[|sel.chosen| - 1].at, notBefore, sel.chosen))
  }

  lemma {:induction false} PollIsWellChosen(runs: seq<RunDir>, i: nat, notBefore: RunId)
    requires i <= |runs| && Drained(runs, i, notBefore, [])
    ensures WellChosen(runs, PollFrom(runs, i, notBefore), notBefore)
    ensures PollFrom(runs, i, notBefore).requested.None? && PollFrom(runs, i, notBefore).existing.None?
    decreases |runs| - i
  {
    if i < |runs| {
      if runs[i].id < notBefore {
        PollIsWellChosen(runs, i + 1, notBefore);
      } else {
        var look := Inspect(i, runs[i], None);
        if Unfinished(look) {
          UnfinishedIsNotFinal(i, runs[i], None);
        } else if !look.Corrupt? {
          PollIsWellChosen(runs, i + 1, notBefore);
        }
      }
    }
  }

  lemma {:induction false} BacklogIsWellChosen(runs: seq<RunDir>, i: nat, notBefore: RunId, id: RunId)
    requires i <= |runs| && BacklogUpTo(runs, i, notBefore, id).Ok?
    requires forall j | 0 <= j < i :: runs[j].id < id
    ensures
      var backlog := BacklogUpTo(runs, i, notBefore, id).value;
      && (forall m | 0 <= m < |backlog| :: Chosen(runs, backlog[m]) && backlog[m].at < i)
      && (forall m, n | 0 <= m < n < |backlog| :: backlog[m].at < backlog[n].at)
      && Drained(runs, i, notBefore, backlog)
  {
    if i > 0 {
      BacklogIsWellChosen(runs, i - 1, notBefore, id);
      var look := Inspect(i - 1, runs[i - 1], None);
      if Unfinished(look) {
        UnfinishedIsNotFinal(i - 1, runs[i - 1], None);
      }
    }
  }

  lemma SelectIsWellChosen(runs: seq<RunDir>, commit: string, notBefore: RunId, id: Option<RunId>)
    requires Sorted(runs)
    ensures WellChosen(runs, Select(runs, commit, notBefore, id), notBefore)
  {
    if id.None? {
      PollIsWellChosen(runs, 0, notBefore);
    } else {
      var at := Find(runs, id.value);
      if id.value >= notBefore && at < |runs| {
        var look := Inspect(at, runs[at], Some(commit));
        if Unfinished(look) {
          UnfinishedIsNotFinal(at, runs[at], Some(commit));
          BacklogStops(runs, at, |runs|, notBefore, id.value);
          if BacklogUpTo(runs, |runs|, notBefore, id.value).Ok? {
            BacklogIsWellChosen(runs, at, notBefore, id.value);
            DrainedMore(runs, at, notBefore, BacklogUpTo(runs, at, notBefore, id.value).value, look.candidate);
          }
        }
      }
    }
  }

  lemma DrainedMore(runs: seq<RunDir>, n: nat, notBefore: RunId, except: seq<Candidate>, c: Candidate)
    requires n <= |runs| && Drained(runs, n, notBefore, except)
    ensures Drained(runs, n, notBefore, except + [c])
  {
  }

  lemma SelectionIsInFolder(runs: seq<RunDir>, commit: string, notBefore: RunId, id: Option<RunId>)
    ensures
      var sel := Select(runs, commit, notBefore, id);
      sel.existing.None? ==> InFolder(|runs|, sel.chosen, sel.requested)
  {
    if id.None? {
      PollInFolder(runs, 0, notBefore);
    } else {
      BacklogInFolder(runs, |runs|, notBefore, id.value);
    }
  }

  lemma {:induction false} PollInFolder(runs: seq<RunDir>, i: nat, notBefore: RunId)
    requires i <= |runs|
    ensures InFolder(|runs|, PollFrom(runs, i, notBefore).chosen, PollFrom(runs, i, notBefore).requested)
    decreases |runs| - i
  {
    if i < |runs| {
      PollInFolder(runs, i + 1, notBefore);
    }
  }

  lemma {:induction false} BacklogInFolder(runs: seq<RunDir>, i: nat, notBefore: RunId, id: RunId)
    requires i <= |runs|
    ensures BacklogUpTo(runs, i, notBefore, id).Ok? ==> InFolder(|runs|, BacklogUpTo(runs, i, notBefore, id).value, None)
  {
    if i > 0 {
      BacklogInFolder(runs, i - 1, notBefore, id);
    }
  }

  // ---- what a pass does -----------------------------------------------

  predicate IsReady(r: RunDir) {
    r.result.Written? && r.result.payload.status.Ready?
  }

  /** Only the result file differs, and it is one the candidate's reader accepts. */
  predicate WrittenFor(was: RunDir, now: RunDir, c: Candidate) {
    now.result.Written? && now == was.(result := now.result) && Acceptable(c, now.result.payload)
  }

  /** A list of candidates to work through, the requested one last. */
  predicate Plan(n: nat, chosen: seq<Candidate>, requested: Option<Candidate>) {
    && InFolder(n, chosen, requested)
    && (forall m, l | 0 <= m < l < |chosen| :: chosen[m].at < chosen[l].at)
    && (requested.Some? ==> chosen != [] && chosen[|chosen| - 1] == requested.value)
    && (requested.None? ==> |chosen| <= 1)
  }

  predicate Touches(chosen: seq<Candidate>, k: nat, i: nat) {
    exists m | k <= m < |chosen| :: chosen[m].at == i
  }

  /** Nothing is written but for the candidates from the k-th on. */
  predicate WritesThere(runs: seq<RunDir>, chosen: seq<Candidate>, k: nat, now: seq<RunDir>)
    requires InFolder(|runs|, chosen, None)
  {
    && |now| == |runs|
    && (forall i | 0 <= i < |runs| && !Touches(chosen, k, i) :: now[i] == runs[i])
    && (forall m | k <= m < |chosen| ::
          now[chosen[m].at] == runs[chosen[m].at] || WrittenFor(runs[chosen[m].at], now[chosen[m].at], chosen[m]))
  }

  /** When one of them becomes ready, those before it are. */
  predicate ReadyInTurn(runs: seq<RunDir>, chosen: seq<Candidate>, k: nat, now: seq<RunDir>)
    requires InFolder(|runs|, chosen, None) && |now| == |runs|
  {
    forall m, l | k <= m < l < |chosen| && !IsReady(runs[chosen[l].at]) && IsReady(now[chosen[l].at]) ::
      IsReady(now[chosen[m].at])
  }

  predicate ImportsInTurn(chosen: seq<Candidate>, k: nat, imported: seq<RunId>)
    requires k <= |chosen|
  {
    |imported| <= |chosen| - k && forall j | 0 <= j < |imported| :: imported[j] == chosen[k + j].id
  }

  /** From the k-th candidate on: what is written, where, and in what order. */
  predicate Worked(runs: seq<RunDir>, chosen: seq<Candidate>, k: nat, out: Outcome)
    requires InFolder(|runs|, chosen, None) && k <= |chosen|
  {
    WritesThere(runs, chosen, k, out.runs) && ReadyInTurn(runs, chosen, k, out.runs) && ImportsInTurn(chosen, k, out.imported)
  }

  lemma StopWritesOne(runs: seq<RunDir>, chosen: seq<Candidate>, k: nat, p: Payload, exit: int, imported: seq<RunId>)
    requires k < |chosen| && (Plan(|runs|, chosen, None) || Plan(|runs|, chosen, Some(chosen[|chosen| - 1])))
    requires Acceptable(chosen[k], p) && !p.status.Ready?
    requires imported == [] || imported == [chosen[k].id]
    ensures Worked(runs, chosen, k, Outcome(Put(runs, chosen[k], p), exit, imported))
  {
    assert Touches(chosen, k, chosen[k].at);
    assert forall m | k < m < |chosen| :: chosen[m].at > chosen[k].at;
  }

  lemma StopWritesTwo(runs: seq<RunDir>, chosen: seq<Candidate>, k: nat, p: Payload, q: Payload, exit: int, imported: seq<RunId>)
    requires k < |chosen| - 1 && Plan(|runs|, chosen, Some(chosen[|chosen| - 1]))
    requires Acceptable(chosen[k], p) && !p.status.Ready? && Acceptable(chosen[|chosen| - 1], q) && !q.status.Ready?
    requires imported == [] || imported == [chosen[k].id]
    ensures Worked(runs, chosen, k, Outcome(Put(Put(runs, chosen[k], p), chosen[|chosen| - 1], q), exit, imported))
  {
    var last := |chosen| - 1;
    StopWritesOne(runs, chosen, k, p, exit, imported);
    assert chosen[last].at > chosen[k].at && Touches(chosen, k, chosen[last].at);
    assert forall m | k <= m < last :: chosen[m].at < chosen[last].at;
  }

  lemma StopWorks(runs: seq<RunDir>, chosen: seq<Candidate>, k: nat, requested: Option<Candidate>, commit: string,
                  exit: int, completed: nat, imported: seq<RunId>)
    requires k < |chosen| && Plan(|runs|, chosen, requested) && FullSha(commit) && exit != 0
    requires imported == [] || imported == [chosen[k].id]
    ensures
      var (left, code) := Stopped(runs, chosen[k], requested, commit, exit, completed);
      Worked(runs, chosen, k, Outcome(left, code, imported))
  {
    var c := chosen[k];
    var p := ResultOf(c, commit, exit, completed, None);
    if requested.Some? && c.id != requested.value.id {
      var q := ResultOf(requested.value, commit, INTERNAL_ERROR, completed, Some((c.id, exit)));
      StopWritesTwo(runs, chosen, k, p, q, INTERNAL_ERROR, imported);
    } else {
      StopWritesOne(runs, chosen, k, p, exit, imported);
    }
  }

  lemma {:induction false} ConsumeWorks(runs: seq<RunDir>, chosen: seq<Candidate>, k: nat, requested: Option<Candidate>, commit: string, importer: Importer)
    requires k <= |chosen| && Plan(|runs|, chosen, requested) && FullSha(commit)
    ensures Worked(runs, chosen, k, Consume(runs, chosen, k, requested, commit, importer))
    decreases |chosen| - k
  {
    if k < |chosen| {
      var c := chosen[k];
      var got := importer(c.id);
      if !got.intact {
        StopWorks(runs, chosen, k, requested, commit, INTERNAL_ERROR, k, []);
      } else if EffectiveExit(got.exit, got.report) != 0 {
        StopWorks(runs, chosen, k, requested, commit, EffectiveExit(got.exit, got.report), k + 1, [c.id]);
      } else {
        var p := ResultOf(c, commit, 0, k + 1, None);
        ConsumeWorks(Put(runs, c, p), chosen, k + 1, requested, commit, importer);
        GoOnWorks(runs, chosen, k, p, Consume(Put(runs, c, p), chosen, k + 1, requested, commit, importer));
      }
    }
  }

  lemma GoOnWrites(runs: seq<RunDir>, chosen: seq<Candidate>, k: nat, p: Payload, now: seq<RunDir>)
    requires k < |chosen| && InFolder(|runs|, chosen, None)
    requires forall m, l | 0 <= m < l < |chosen| :: chosen[m].at < chosen[l].at
    requires Acceptable(chosen[k], p) && WritesThere(Put(runs, chosen[k], p), chosen, k + 1, now)
    ensures WritesThere(runs, chosen, k, now) && now[chosen[k].at] == Put(runs, chosen[k], p)[chosen[k].at]
  {
    var c := chosen[k];
    var mid := Put(runs, c, p);
    assert !Touches(chosen, k + 1, c.at);
    assert forall m | k < m < |chosen| :: chosen[m].at != c.at && mid[chosen[m].at] == runs[chosen[m].at];
    forall i | 0 <= i < |runs| && !Touches(chosen, k, i) ensures now[i] == runs[i] {
      assert chosen[k].at != i && !Touches(chosen, k + 1, i);
    }
  }

  lemma GoOnInTurn(runs: seq<RunDir>, chosen: seq<Candidate>, k: nat, p: Payload, now: seq<RunDir>)
    requires k < |chosen| && InFolder(|runs|, chosen, None) && |now| == |runs|
    requires forall m, l | 0 <= m < l < |chosen| :: chosen[m].at < chosen[l].at
    requires p.status.Ready? && now[chosen[k].at] == Put(runs, chosen[k], p)[chosen[k].at]
    requires ReadyInTurn(Put(runs, chosen[k], p), chosen, k + 1, now)
    ensures ReadyInTurn(runs, chosen, k, now)
  {
    assert forall l | k < l < |chosen| :: Put(runs, chosen[k], p)[chosen[l].at] == runs[chosen[l].at];
  }

  lemma GoOnWorks(runs: seq<RunDir>, chosen: seq<Candidate>, k: nat, p: Payload, rest: Outcome)
    requires k < |chosen| && InFolder(|runs|, chosen, None)
    requires forall m, l | 0 <= m < l < |chosen| :: chosen[m].at < chosen[l].at
    requires p.status.Ready? && Acceptable(chosen[k], p)
    requires Worked(Put(runs, chosen[k], p), chosen, k + 1, rest)
    ensures Worked(runs, chosen, k, rest.(imported := [chosen[k].id] + rest.imported))
  {
    GoOnWrites(runs, chosen, k, p, rest.runs);
    GoOnInTurn(runs, chosen, k, p, rest.runs);
  }

  /** What a pass may have done to a run: nothing, or, when the run was
      unfinished, a result that its reader accepts. */
  predicate Rewritten(at: nat, was: RunDir, now: RunDir) {
    was == now || (Unfinished(Inspect(at, was, None)) && WrittenFor(was, now, Inspect(at, was, None).candidate))
  }

  /** The one result a pass writes when it finds a corrupt run before the one
      that was requested. */
  predicate Blocked(runs: seq<RunDir>, c: Candidate, commit: string, out: Outcome) {
    && FullSha(commit) && Chosen(runs, c) && out.imported == []
    && out.runs == Put(runs, c, ResultOf(c, commit, INTERNAL_ERROR, 0, None))
  }

  /** A pass writes nothing, a blocked result, or what its selection comes to. */
  predicate PassShape(runs: seq<RunDir>, sel: Selection, a: Args, out: Outcome) {
    || (out.runs == runs && out.imported == [])
    || (sel.requested.Some? && Blocked(runs, sel.requested.value, a.commit, out))
    || (WellChosen(runs, sel, a.notBefore) && InFolder(|runs|, sel.chosen, None) && Worked(runs, sel.chosen, 0, out))
  }

  lemma PassWorks(runs: seq<RunDir>, a: Args, importer: Importer)
    requires Sorted(runs)
    ensures PassShape(runs, Select(runs, a.commit, a.notBefore, a.id), a, Pass(runs, a, importer))
  {
    SelectIsWellChosen(runs, a.commit, a.notBefore, a.id);
    SelectionIsInFolder(runs, a.commit, a.notBefore, a.id);
    var sel := Select(runs, a.commit, a.notBefore, a.id);
    if FullSha(a.commit) && sel.existing.None? && !sel.corrupt && sel.chosen != [] && !a.dryRun {
      ConsumeWorks(runs, sel.chosen, 0, sel.requested, a.commit, importer);
    }
  }

  lemma ChosenIsNotFinal(runs: seq<RunDir>, c: Candidate)
    requires Chosen(runs, c)
    ensures !Final(runs[c.at]) && runs[c.at].id == c.id
  {
    UnfinishedIsNotFinal(c.at, runs[c.at], None);
  }

  lemma ShapeRewrites(runs: seq<RunDir>, sel: Selection, a: Args, out: Outcome, i: nat)
    requires PassShape(runs, sel, a, out) && |out.runs| == |runs| && i < |runs|
    ensures Rewritten(i, runs[i], out.runs[i])
  {
    if out.runs[i] != runs[i] && !(sel.requested.Some? && Blocked(runs, sel.requested.value, a.commit, out)) {
      assert Touches(sel.chosen, 0, i);
      var m :| 0 <= m < |sel.chosen| && sel.chosen[m].at == i;
      assert Chosen(runs, sel.chosen[m]);
    }
  }

  lemma ShapeImports(runs: seq<RunDir>, sel: Selection, a: Args, out: Outcome, i: nat)
    requires PassShape(runs, sel, a, out) && Sorted(runs) && i < |runs| && Final(runs[i])
    ensures runs[i].id !in out.imported
  {
    forall j | 0 <= j < |out.imported| ensures out.imported[j] != runs[i].id {
      assert Chosen(runs, sel.chosen[j]);
      ChosenIsNotFinal(runs, sel.chosen[j]);
    }
  }

  /** No pass overwrites or imports again a run with a final result, and every
      result it writes is one its reader accepts. */
  lemma FinalResultsAreKept(runs: seq<RunDir>, a: Args, importer: Importer)
    requires Sorted(runs)
    ensures
      var out := Pass(runs, a, importer);
      && (forall i | 0 <= i < |runs| :: Rewritten(i, runs[i], out.runs[i]))
      && (forall i | 0 <= i < |runs| && Final(runs[i]) :: out.runs[i] == runs[i] && runs[i].id !in out.imported)
  {
    PassWorks(runs, a, importer);
    var sel := Select(runs, a.commit, a.notBefore, a.id);
    var out := Pass(runs, a, importer);
    forall i | 0 <= i < |runs|
      ensures Rewritten(i, runs[i], out.runs[i])
      ensures Final(runs[i]) ==> out.runs[i] == runs[i] && runs[i].id !in out.imported
    {
      ShapeRewrites(runs, sel, a, out, i);
      if Final(runs[i]) {
        ShapeImports(runs, sel, a, out, i);
        FinalIsNotRewritten(i, runs[i], out.runs[i]);
      }
    }
  }

  lemma FinalIsNotRewritten(at: nat, was: RunDir, now: RunDir)
    requires Rewritten(at, was, now) && Final(was)
    ensures was == now
  {
    if Unfinished(Inspect(at, was, None)) {
      UnfinishedIsNotFinal(at, was, None);
    }
  }

  lemma ShapeIsInOrder(runs: seq<RunDir>, sel: Selection, a: Args, out: Outcome, i: nat, j: nat)
    requires PassShape(runs, sel, a, out) && |out.runs| == |runs|
    requires j < i < |runs| && runs[j].id >= a.notBefore && !IsReady(runs[i]) && IsReady(out.runs[i])
    ensures
      var look := Inspect(j, runs[j], None);
      !look.Corrupt? && (Unfinished(look) ==> IsReady(out.runs[j]))
  {
    assert Touches(sel.chosen, 0, i);
    var l :| 0 <= l < |sel.chosen| && sel.chosen[l].at == i;
    assert sel.chosen[|sel.chosen| - 1].at >= i;
    var look := Inspect(j, runs[j], None);
    if Unfinished(look) {
      UnfinishedIsNotFinal(j, runs[j], None);
      var m :| 0 <= m < |sel.chosen| && sel.chosen[m] == look.candidate;
      assert m < l;
    }
  }

  /** When a run becomes ready, every earlier eligible run has a final result. */
  lemma ReadyComesInOrder(runs: seq<RunDir>, a: Args, importer: Importer, i: nat, j: nat)
    requires Sorted(runs) && j < i < |runs| && runs[j].id >= a.notBefore
    requires !IsReady(runs[i]) && IsReady(Pass(runs, a, importer).runs[i])
    ensures !Inspect(j, runs[j], None).Corrupt?
    ensures Inspect(j, runs[j], None).Seen? ==> Final(Pass(runs, a, importer).runs[j])
  {
    PassWorks(runs, a, importer);
    ShapeIsInOrder(runs, Select(runs, a.commit, a.notBefore, a.id), a, Pass(runs, a, importer), i, j);
    var look := Inspect(j, runs[j], None);
    if look.Seen? && !Unfinished(look) {
      SeenResultIsTheFile(j, runs[j]);
      FinalResultsAreKept(runs, a, importer);
    }
  }

  lemma SeenResultIsTheFile(at: nat, r: RunDir)
    requires Inspect(at, r, None).Seen? && Inspect(at, r, None).result.Some?
    ensures r.result == Written(Inspect(at, r, None).result.value)
  {
  }

  // ---- every sequence of passes ---------------------------------------

  function ResultAt(runs: seq<RunDir>, id: RunId): ResultFile {
    var at := Find(runs, id);
    if at < |runs| then runs[at].result else NoResult
  }

  predicate FinalAt(runs: seq<RunDir>, id: RunId) {
    ResultAt(runs, id).Written? && !ResultAt(runs, id).payload.status.Retryable?
  }

  datatype State = State(runs: seq<RunDir>, imports: seq<RunId>)

  /** Between passes runs may arrive and change, but final results stay. */
  datatype Event = Work(args: Args, importer: Importer) | Change(runs: seq<RunDir>)

  ghost predicate KeepsFinals(was: seq<RunDir>, now: seq<RunDir>) {
    forall id | FinalAt(was, id) :: ResultAt(now, id) == ResultAt(was, id)
  }

  ghost function Step(s: State, e: Event): State {
    match e
    case Work(args, importer) =>
      var out := Pass(s.runs, args, importer);
      State(out.runs, s.imports + out.imported)
    case Change(runs) => if Sorted(runs) && KeepsFinals(s.runs, runs) then s.(runs := runs) else s
  }

  ghost function Run(s: State, events: seq<Event>): State {
    if events == [] then s else Step(Run(s, events[..|events| - 1]), events[|events| - 1])
  }

  lemma FindAt(runs: seq<RunDir>, i: nat)
    requires Sorted(runs) && i < |runs|
    ensures Find(runs, runs[i].id) == i
  {
  }

  lemma PassKeepsFinals(runs: seq<RunDir>, a: Args, importer: Importer, id: RunId)
    requires Sorted(runs)
    ensures Sorted(Pass(runs, a, importer).runs)
    ensures FinalAt(runs, id) ==>
              ResultAt(Pass(runs, a, importer).runs, id) == ResultAt(runs, id) && id !in Pass(runs, a, importer).imported
  {
    FinalResultsAreKept(runs, a, importer);
    var now := Pass(runs, a, importer).runs;
    assert forall i | 0 <= i < |runs| :: now[i].id == runs[i].id by {
      assert forall i | 0 <= i < |runs| :: Rewritten(i, runs[i], now[i]);
    }
    var at := Find(runs, id);
    if at < |runs| {
      FindAt(now, at);
    }
  }

  /** Over every sequence of passes and changes: a run with a final result keeps
      it, and is never handed to the importer again. */
  lemma {:induction false} FinalIsForever(s: State, events: seq<Event>, id: RunId)
    requires Sorted(s.runs) && FinalAt(s.runs, id)
    ensures
      var t := Run(s, events);
      && Sorted(t.runs) && ResultAt(t.runs, id) == ResultAt(s.runs, id)
      && |s.imports| <= |t.imports| && id !in t.imports[|s.imports|..]
  {
    if events != [] {
      var front, e := events[..|events| - 1], events[|events| - 1];
      FinalIsForever(s, front, id);
      var u := Run(s, front);
      if e.Work? {
        PassKeepsFinals(u.runs, e.args, e.importer, id);
        var out := Pass(u.runs, e.args, e.importer);
        assert (u.imports + out.imported)[|s.imports|..] == u.imports[|s.imports|..] + out.imported;
      }
    }
  }

  // ---- draining the queue ---------------------------------------------

  predicate Waits(runs: seq<RunDir>, i: nat, notBefore: RunId)
    requires i < |runs|
  {
    runs[i].id >= notBefore && Unfinished(Inspect(i, runs[i], None))
  }

  /** How many of the first `n` runs wait for the consumer. */
  function Left(runs: seq<RunDir>, n: nat, notBefore: RunId): nat
    requires n <= |runs|
  {
    if n == 0 then 0 else Left(runs, n - 1, notBefore) + if Waits(runs, n - 1, notBefore) then 1 else 0
  }

  lemma {:induction false} LeftAfterUpdate(runs: seq<RunDir>, n: nat, notBefore: RunId, at: nat, now: RunDir)
    requires at < |runs| && n <= |runs| && Waits(runs, at, notBefore) && now.id == runs[at].id && !Unfinished(Inspect(at, now, None))
    ensures Left(runs[at := now], n, notBefore) == Left(runs, n, notBefore) - (if at < n then 1 else 0)
  {
    if n > 0 {
      LeftAfterUpdate(runs, n - 1, notBefore, at, now);
      if n - 1 != at {
        assert runs[at := now][n - 1] == runs[n - 1];
      } else {
        assert runs[at := now][at] == now;
      }
    }
  }

  lemma {:induction false} PollPicksAWaitingRun(runs: seq<RunDir>, i: nat, notBefore: RunId)
    requires i <= |runs|
    ensures
      var sel := PollFrom(runs, i, notBefore);
      && (sel.chosen != [] ==> |sel.chosen| == 1 && Chosen(runs, sel.chosen[0]) && Waits(runs, sel.chosen[0].at, notBefore) && !sel.corrupt)
      && (sel.chosen == [] && !sel.corrupt ==> Left(runs, |runs|, notBefore) == Left(runs, i, notBefore))
      && (sel.corrupt ==> exists j | i <= j < |runs| :: runs[j].id >= notBefore && Inspect(j, runs[j], None).Corrupt?)
    decreases |runs| - i
  {
    if i < |runs| {
      var look := Inspect(i, runs[i], None);
      if runs[i].id < notBefore || (!look.Corrupt? && !Unfinished(look)) {
        PollPicksAWaitingRun(runs, i + 1, notBefore);
      } else if Unfinished(look) {
        UnfinishedIsNotFinal(i, runs[i], None);
      }
    }
  }

  predicate Polls(a: Args) {
    FullSha(a.commit) && a.id.None? && !a.dryRun
  }

  /** A poll that picked a run and ends otherwise than to be retried. */
  lemma PollWritesOneResult(runs: seq<RunDir>, a: Args, importer: Importer)
    requires Sorted(runs) && Polls(a)
    requires PollFrom(runs, 0, a.notBefore).chosen != []
    requires Pass(runs, a, importer).exit !in {INTERNAL_ERROR, TEMPFAIL}
    ensures
      var c := PollFrom(runs, 0, a.notBefore).chosen[0];
      var out := Pass(runs, a, importer);
      && Chosen(runs, c) && out.exit == EffectiveExit(importer(c.id).exit, importer(c.id).report)
      && out.runs == Put(runs, c, ResultOf(c, a.commit, out.exit, 1, None))
  {
    PollPicksAWaitingRun(runs, 0, a.notBefore);
    PollIsWellChosen(runs, 0, a.notBefore);
    var sel := PollFrom(runs, 0, a.notBefore);
    var c := sel.chosen[0];
    var p := ResultOf(c, a.commit, 0, 1, None);
    SelectionIsInFolder(runs, a.commit, a.notBefore, a.id);
    assert Pass(runs, a, importer) == Consume(runs, sel.chosen, 0, None, a.commit, importer);
    assert Consume(Put(runs, c, p), sel.chosen, 1, None, a.commit, importer).runs == Put(runs, c, p);
  }

  /** Each poll with an outcome that is not retryable leaves one run less. */
  lemma PollsMakeProgress(runs: seq<RunDir>, a: Args, importer: Importer)
    requires Sorted(runs) && Polls(a)
    requires PollFrom(runs, 0, a.notBefore).chosen != []
    requires Pass(runs, a, importer).exit !in {INTERNAL_ERROR, TEMPFAIL}
    ensures
      var out := Pass(runs, a, importer);
      |out.runs| == |runs| && Left(out.runs, |runs|, a.notBefore) == Left(runs, |runs|, a.notBefore) - 1
  {
    PollWritesOneResult(runs, a, importer);
    PollPicksAWaitingRun(runs, 0, a.notBefore);
    var c := PollFrom(runs, 0, a.notBefore).chosen[0];
    var out := Pass(runs, a, importer);
    var p := ResultOf(c, a.commit, out.exit, 1, None);
    NextLookSeesTheResult(c.at, runs[c.at], p);
    LeftAfterUpdate(runs, |runs|, a.notBefore, c.at, runs[c.at].(result := Written(p)));
  }

  /** No run is corrupt, and no summary vouches for an older final result. */
  predicate Tidy(runs: seq<RunDir>, notBefore: RunId) {
    forall i | 0 <= i < |runs| && runs[i].id >= notBefore ::
      !Inspect(i, runs[i], None).Corrupt?
      && (runs[i].summary.Summary? && Unfinished(Inspect(i, runs[i], None)) ==> runs[i].summary.resultStamp.None? || Superseded(runs[i].summary))
  }

  /** The importer always comes to an end that is not to be retried. */
  ghost predicate Decides(importer: Importer) {
    forall id :: importer(id).intact && EffectiveExit(importer(id).exit, importer(id).report) !in {INTERNAL_ERROR, TEMPFAIL}
  }

  lemma TidyPollDrainsOne(runs: seq<RunDir>, a: Args, importer: Importer)
    requires Sorted(runs) && Tidy(runs, a.notBefore) && Polls(a) && Decides(importer)
    ensures
      var out := Pass(runs, a, importer);
      var left := Left(runs, |runs|, a.notBefore);
      && |out.runs| == |runs| && Sorted(out.runs) && Tidy(out.runs, a.notBefore)
      && Left(out.runs, |runs|, a.notBefore) == if left == 0 then 0 else left - 1
  {
    PollPicksAWaitingRun(runs, 0, a.notBefore);
    var sel := PollFrom(runs, 0, a.notBefore);
    assert !sel.corrupt;
    if sel.chosen != [] {
      var c := sel.chosen[0];
      PollExit(runs, a, importer);
      PollsMakeProgress(runs, a, importer);
      PollWritesOneResult(runs, a, importer);
      var p := ResultOf(c, a.commit, Pass(runs, a, importer).exit, 1, None);
      NextLookSeesTheResult(c.at, runs[c.at], p);
    } else {
      PollIsWellChosen(runs, 0, a.notBefore);
      assert Pass(runs, a, importer).runs == runs;
    }
  }

  lemma PollExit(runs: seq<RunDir>, a: Args, importer: Importer)
    requires Sorted(runs) && Polls(a) && Decides(importer) && PollFrom(runs, 0, a.notBefore).chosen != []
    ensures Pass(runs, a, importer).exit !in {INTERNAL_ERROR, TEMPFAIL}
  {
    PollPicksAWaitingRun(runs, 0, a.notBefore);
    PollIsWellChosen(runs, 0, a.notBefore);
    var sel := PollFrom(runs, 0, a.notBefore);
    SelectionIsInFolder(runs, a.commit, a.notBefore, a.id);
    var p := ResultOf(sel.chosen[0], a.commit, 0, 1, None);
    assert Pass(runs, a, importer) == Consume(runs, sel.chosen, 0, None, a.commit, importer);
    assert Consume(Put(runs, sel.chosen[0], p), sel.chosen, 1, None, a.commit, importer).exit == 0;
  }

  function Repeated(runs: seq<RunDir>, a: Args, importer: Importer, n: nat): seq<RunDir> {
    if n == 0 then runs else Pass(Repeated(runs, a, importer, n - 1), a, importer).runs
  }

  /** A tidy folder left alone is drained one run a poll, and stays drained. */
  lemma {:induction false} QueueDrains(runs: seq<RunDir>, a: Args, importer: Importer, n: nat)
    requires Sorted(runs) && Tidy(runs, a.notBefore) && Polls(a) && Decides(importer)
    ensures
      var after := Repeated(runs, a, importer, n);
      var left := Left(runs, |runs|, a.notBefore);
      && |after| == |runs| && Sorted(after) && Tidy(after, a.notBefore)
      && Left(after, |runs|, a.notBefore) == if left >= n then left - n else 0
  {
    if n > 0 {
      QueueDrains(runs, a, importer, n - 1);
      TidyPollDrainsOne(Repeated(runs, a, importer, n - 1), a, importer);
    }
  }
}
