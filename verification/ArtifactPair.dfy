/** The deep-read artifact cache: a full and a compact file per article key,
    replaced one after the other with no lock between processes.

    A replace and a read of one file are single steps; writers, readers and
    crashes interleave freely. */
module ArtifactPair {
  import opened Text

  const ARTIFACT_VERSION := "deep_read_artifact_v1"
  const PIPELINE_VERSION := "1.0.0"

  datatype Detail = Full | Compact

  /** `retryable` stands for the backend, extraction and vision failure marks. */
  datatype Payload = Payload(body: string, retryable: bool)

  datatype Envelope = Envelope(
    articleId: string,
    contentHash: string,
    artifactVersion: string,
    pipelineVersion: string,
    detail: Detail,
    generation: string,
    generatedAt: string,
    payload: Payload)

  /** One run of the generator: both halves of one generation. */
  datatype Publication = Publication(
    articleId: string,
    contentHash: string,
    generation: string,
    generatedAt: string,
    full: Payload,
    compact: Payload)

  datatype Pair = Pair(generation: string, generatedAt: string, contentHash: string, full: Payload, compact: Payload)

  function FullOf(p: Publication): Envelope {
    Envelope(p.articleId, p.contentHash, ARTIFACT_VERSION, PIPELINE_VERSION, Full, p.generation, p.generatedAt, p.full)
  }

  function CompactOf(p: Publication): Envelope {
    Envelope(p.articleId, p.contentHash, ARTIFACT_VERSION, PIPELINE_VERSION, Compact, p.generation, p.generatedAt, p.compact)
  }

  predicate Matches(e: Envelope, articleId: string, contentHash: string, detail: Detail) {
    && e.articleId == articleId
    && e.contentHash == contentHash
    && e.artifactVersion == ARTIFACT_VERSION
    && e.pipelineVersion == PIPELINE_VERSION
    && e.detail == detail
  }

  /** What the loader makes of the two files it read. */
  function LoadPair(full: Option<Envelope>, compact: Option<Envelope>, articleId: string, contentHash: string, allowRetryable: bool): Option<Pair> {
    if full.None? || compact.None? then None
    else
      var f, c := full.value, compact.value;
      if !Matches(f, articleId, contentHash, Full) || !Matches(c, articleId, contentHash, Compact) then None
      else if f.generation == "" || c.generation != f.generation then None
      else if f.generatedAt == "" || c.generatedAt != f.generatedAt then None
      else if !allowRetryable && (f.payload.retryable || c.payload.retryable) then None
      else Some(Pair(f.generation, f.generatedAt, contentHash, f.payload, c.payload))
  }

  // ---- file keys ------------------------------------------------------

  predicate SafeChar(c: char) {
    'a' <= c <= 'z' || 'A' <= c <= 'Z' || '0' <= c <= '9' || c == '_' || c == '-' || c == '.' || c == ':'
  }

  /** The source's pattern ends in `$`, which also matches before a final newline. */
  predicate SafeId(id: string) {
    var body := if id != "" && id[|id| - 1] == '\n' then id[..|id| - 1] else id;
    body != "" && id != "." && id != ".." && forall c | c in body :: SafeChar(c)
  }

  function SafeKey(id: string, digest: string -> string): string {
    if SafeId(id) then id else "unsafe_" + digest(id)
  }

  /** Letters, digits, underscores, hyphens, dots and colons. */
  predicate PlainId(id: string) {
    forall i | 0 <= i < |id| :: 'a' <= id[i] <= 'z' || 'A' <= id[i] <= 'Z' || '0' <= id[i] <= '9' || id[i] in {'_', '-', '.', ':'}
  }

  /** A key never leaves its directory, two ids share one only through a digest,
      and a plain id is its own key. */
  lemma KeysStayInside(a: string, b: string, digest: string -> string)
    requires forall s, c | c in digest(s) :: SafeChar(c)
    ensures '/' !in SafeKey(a, digest) && SafeKey(a, digest) !in {"", ".", ".."}
    ensures a != b && SafeKey(a, digest) == SafeKey(b, digest) ==> !SafeId(a) || !SafeId(b)
    ensures a !in {"", ".", ".."} && PlainId(a) ==> SafeKey(a, digest) == a
  {
    assert !SafeChar('/');
    if SafeId(a) {
      var body := if a[|a| - 1] == '\n' then a[..|a| - 1] else a;
      assert a == body || a == body + "\n";
      assert '/' !in body;
    } else {
      assert |SafeKey(a, digest)| >= 7;
      assert '/' !in digest(a);
    }
  }

  /** A pair is loaded from any two files exactly when both are of the article, the
      content and the current versions, each in its place, of one generation and
      time, and fit to be reused; it holds what they hold. */
  lemma PairsThatLoad(f: Envelope, c: Envelope, articleId: string, contentHash: string, allowRetryable: bool)
    ensures
      LoadPair(Some(f), Some(c), articleId, contentHash, allowRetryable) ==
        if && f.articleId == c.articleId == articleId && f.contentHash == c.contentHash == contentHash
           && f.artifactVersion == c.artifactVersion == "deep_read_artifact_v1" && f.pipelineVersion == c.pipelineVersion == "1.0.0"
           && f.detail == Full && c.detail == Compact && f.generation == c.generation != "" && f.generatedAt == c.generatedAt != ""
           && (allowRetryable || (!f.payload.retryable && !c.payload.retryable))
        then Some(Pair(f.generation, f.generatedAt, contentHash, f.payload, c.payload)) else None
  {
  }

  // ---- the protocol ---------------------------------------------------

  type Pid = nat

  datatype Purpose =
    | Load
    | Verify(pub: Publication, allowRetryable: bool)

  datatype Proc =
    | Idle
    | Publishing(pub: Publication)
    | HalfPublished(pub: Publication)
    | Reading(purpose: Purpose, articleId: string, contentHash: string)
    | HalfRead(purpose: Purpose, articleId: string, contentHash: string, full: Option<Envelope>)

  datatype Outcome =
    | Loaded(articleId: string, contentHash: string, pair: Option<Pair>)
    | Generated(pub: Publication, seen: Pair)
    | Retryable(pub: Publication, seen: Pair)
    | Failed(pub: Publication)

  /** `published` is the history of the generations ever begun. */
  datatype State = State(
    fullDir: map<string, Envelope>,
    compactDir: map<string, Envelope>,
    procs: map<Pid, Proc>,
    published: map<string, Publication>,
    outcomes: seq<Outcome>)

  datatype Act = Publish(pub: Publication) | BeginLoad(articleId: string, contentHash: string) | Advance | Crash

  datatype Event = Event(pid: Pid, act: Act)

  function Lookup(dir: map<string, Envelope>, key: string): Option<Envelope> {
    if key in dir then Some(dir[key]) else None
  }

  function Move(s: State, p: Pid, proc: Proc): State {
    s.(procs := s.procs[p := proc])
  }

  /** A finished read: a loader reports, a writer that fails its strict check
      reads once more with retryable payloads allowed. */
  function FinishRead(s: State, p: Pid, purpose: Purpose, articleId: string, contentHash: string, pair: Option<Pair>): State {
    match purpose
    case Load => Move(s, p, Idle).(outcomes := s.outcomes + [Loaded(articleId, contentHash, pair)])
    case Verify(pub, allow) =>
      if pair.Some? then
        Move(s, p, Idle).(outcomes := s.outcomes + [if allow then Retryable(pub, pair.value) else Generated(pub, pair.value)])
      else if !allow then Move(s, p, Reading(Verify(pub, true), articleId, contentHash))
      else Move(s, p, Idle).(outcomes := s.outcomes + [Failed(pub)])
  }

  function StepOn(s: State, p: Pid, key: string -> string): State
    requires p in s.procs
  {
    match s.procs[p]
    case Idle => s
    case Publishing(pub) =>
      Move(s, p, HalfPublished(pub)).(fullDir := s.fullDir[key(pub.articleId) := FullOf(pub)])
    case HalfPublished(pub) =>
      Move(s, p, Reading(Verify(pub, false), pub.articleId, pub.contentHash))
      .(compactDir := s.compactDir[key(pub.articleId) := CompactOf(pub)])
    case Reading(purpose, a, h) =>
      Move(s, p, HalfRead(purpose, a, h, Lookup(s.fullDir, key(a))))
    case HalfRead(purpose, a, h, full) =>
      var allow := purpose.Verify? && purpose.allowRetryable;
      FinishRead(s, p, purpose, a, h, LoadPair(full, Lookup(s.compactDir, key(a)), a, h, allow))
  }

  /** Generation ids are unique and not empty; a step that is not enabled does nothing. */
  function Step(s: State, e: Event, key: string -> string): State {
    if e.pid !in s.procs then s
    else
      match e.act
      case Crash => Move(s, e.pid, Idle)
      case Advance => StepOn(s, e.pid, key)
      case Publish(pub) =>
        if s.procs[e.pid].Idle? && pub.generation != "" && pub.generatedAt != "" && pub.generation !in s.published
        then Move(s, e.pid, Publishing(pub)).(published := s.published[pub.generation := pub])
        else s
      case BeginLoad(a, h) =>
        if s.procs[e.pid].Idle? then Move(s, e.pid, Reading(Load, a, h)) else s
  }

  function Run(s: State, events: seq<Event>, key: string -> string): State {
    if events == [] then s else Step(Run(s, events[..|events| - 1], key), events[|events| - 1], key)
  }

  // ---- a pair that is seen is one generation --------------------------

  predicate Known(published: map<string, Publication>, pub: Publication) {
    pub.generation in published && published[pub.generation] == pub
  }

  predicate FullHalf(published: map<string, Publication>, e: Envelope) {
    e.generation in published && e == FullOf(published[e.generation])
  }

  predicate CompactHalf(published: map<string, Publication>, e: Envelope) {
    e.generation in published && e == CompactOf(published[e.generation])
  }

  /** Both halves belong to one publication of exactly this article and content. */
  predicate WholePair(published: map<string, Publication>, pair: Pair, articleId: string, contentHash: string) {
    && pair.generation in published
    && var pub := published[pair.generation];
       && pub.generation == pair.generation
       && pub.articleId == articleId && pub.contentHash == contentHash == pair.contentHash
       && pub.generatedAt == pair.generatedAt
       && pub.full == pair.full && pub.compact == pair.compact
  }

  predicate ProcSound(published: map<string, Publication>, proc: Proc) {
    match proc
    case Publishing(pub) => Known(published, pub)
    case HalfPublished(pub) => Known(published, pub)
    case Reading(Verify(pub, _), a, h) => a == pub.articleId && h == pub.contentHash
    case HalfRead(purpose, a, h, full) =>
      && (full.Some? ==> FullHalf(published, full.value))
      && (purpose.Verify? ==> a == purpose.pub.articleId && h == purpose.pub.contentHash)
    case _ => true
  }

  predicate OutcomeSound(published: map<string, Publication>, o: Outcome) {
    match o
    case Loaded(a, h, pair) =>
      pair.Some? ==> WholePair(published, pair.value, a, h) && !pair.value.full.retryable && !pair.value.compact.retryable
    case Generated(pub, seen) =>
      WholePair(published, seen, pub.articleId, pub.contentHash) && !seen.full.retryable && !seen.compact.retryable
    case Retryable(pub, seen) => WholePair(published, seen, pub.articleId, pub.contentHash)
    case Failed(_) => true
  }

  ghost predicate Inv(s: State) {
    && (forall g | g in s.published :: s.published[g].generation == g)
    && (forall k | k in s.fullDir :: FullHalf(s.published, s.fullDir[k]))
    && (forall k | k in s.compactDir :: CompactHalf(s.published, s.compactDir[k]))
    && (forall p | p in s.procs :: ProcSound(s.published, s.procs[p]))
    && (forall i | 0 <= i < |s.outcomes| :: OutcomeSound(s.published, s.outcomes[i]))
  }

  /** The heart of the matter: whatever two halves a reader combined, a pair that
      passes the tests is one publication. */
  lemma LoadedPairIsWhole(published: map<string, Publication>, full: Option<Envelope>, compact: Option<Envelope>, a: string, h: string, allow: bool)
    requires forall g | g in published :: published[g].generation == g
    requires full.Some? ==> FullHalf(published, full.value)
    requires compact.Some? ==> CompactHalf(published, compact.value)
    ensures
      var pair := LoadPair(full, compact, a, h, allow);
      pair.Some? ==>
        && WholePair(published, pair.value, a, h)
        && (!allow ==> !pair.value.full.retryable && !pair.value.compact.retryable)
  {
  }

  lemma PublishKeepsInv(s: State, p: Pid, pub: Publication)
    requires Inv(s) && p in s.procs && pub.generation !in s.published
    ensures Inv(Move(s, p, Publishing(pub)).(published := s.published[pub.generation := pub]))
  {
    var more := s.published[pub.generation := pub];
    assert forall g | g in s.published :: g in more && more[g] == s.published[g];
    forall i | 0 <= i < |s.outcomes| ensures OutcomeSound(more, s.outcomes[i]) {
      assert OutcomeSound(s.published, s.outcomes[i]);
    }
    forall q | q in s.procs ensures ProcSound(more, s.procs[q]) {
      assert ProcSound(s.published, s.procs[q]);
    }
  }

  lemma ReplaceKeepsInv(s: State, p: Pid, key: string -> string)
    requires Inv(s) && p in s.procs && (s.procs[p].Publishing? || s.procs[p].HalfPublished?)
    ensures Inv(StepOn(s, p, key))
  {
    assert ProcSound(s.published, s.procs[p]);
  }

  lemma ReadKeepsInv(s: State, p: Pid, key: string -> string)
    requires Inv(s) && p in s.procs && s.procs[p].Reading?
    ensures Inv(StepOn(s, p, key))
  {
    assert ProcSound(s.published, s.procs[p]);
  }

  lemma FinishKeepsInv(s: State, p: Pid, key: string -> string)
    requires Inv(s) && p in s.procs && s.procs[p].HalfRead?
    ensures Inv(StepOn(s, p, key))
  {
    var proc := s.procs[p];
    assert ProcSound(s.published, proc);
    var allow := proc.purpose.Verify? && proc.purpose.allowRetryable;
    LoadedPairIsWhole(s.published, proc.full, Lookup(s.compactDir, key(proc.articleId)), proc.articleId, proc.contentHash, allow);
  }

  lemma StepKeepsInv(s: State, e: Event, key: string -> string)
    requires Inv(s)
    ensures Inv(Step(s, e, key))
  {
    if e.pid in s.procs {
      match e.act
      case Publish(pub) =>
        if pub.generation !in s.published {
          PublishKeepsInv(s, e.pid, pub);
        }
      case Advance =>
        match s.procs[e.pid] {
          case Idle =>
          case Reading(_, _, _) => ReadKeepsInv(s, e.pid, key);
          case HalfRead(_, _, _, _) => FinishKeepsInv(s, e.pid, key);
          case _ => ReplaceKeepsInv(s, e.pid, key);
        }
      case _ =>
    }
  }

  /** In every interleaving of writers and readers, under any naming of the files
      (two ids may share a key), each pair that was ever seen, by a loader or by a
      writer checking its work, has both halves from one generation of exactly
      the requested article and content. */
  lemma {:induction false} EveryPairSeenIsWhole(s: State, events: seq<Event>, key: string -> string)
    requires Inv(s)
    ensures Inv(Run(s, events, key))
    ensures forall i | 0 <= i < |Run(s, events, key).outcomes| ::
              OutcomeSound(Run(s, events, key).published, Run(s, events, key).outcomes[i])
  {
    if events != [] {
      var front := events[..|events| - 1];
      EveryPairSeenIsWhole(s, front, key);
      StepKeepsInv(Run(s, front, key), events[|events| - 1], key);
    }
  }

  // ---- when a publication is readable ---------------------------------

  /** The files of one key as a reader would combine them now. */
  function PairAt(s: State, key: string -> string, a: string, h: string): Option<Pair> {
    LoadPair(Lookup(s.fullDir, key(a)), Lookup(s.compactDir, key(a)), a, h, false)
  }

  /** The event replaces a file of key `k`. */
  predicate WritesKey(s: State, e: Event, key: string -> string, k: string) {
    && e.pid in s.procs && e.act.Advance?
    && (s.procs[e.pid].Publishing? || s.procs[e.pid].HalfPublished?)
    && key(s.procs[e.pid].pub.articleId) == k
  }

  /** No event of the run, by whomever, replaces a file of key `k`, and `p` rests. */
  predicate Quiet(s: State, events: seq<Event>, key: string -> string, k: string, p: Pid) {
    events == [] ||
    (var n := |events| - 1;
     && Quiet(s, events[..n], key, k, p)
     && events[n].pid != p
     && !WritesKey(Run(s, events[..n], key), events[n], key, k))
  }

  lemma AdvanceKeepsOthers(s: State, q: Pid, key: string -> string, p: Pid)
    requires q != p && p in s.procs && q in s.procs
    ensures p in StepOn(s, q, key).procs && StepOn(s, q, key).procs[p] == s.procs[p]
  {
  }

  lemma OthersKeepTheirPhase(s: State, e: Event, key: string -> string, p: Pid)
    requires e.pid != p && p in s.procs
    ensures p in Step(s, e, key).procs && Step(s, e, key).procs[p] == s.procs[p]
  {
    if e.act.Advance? && e.pid in s.procs {
      AdvanceKeepsOthers(s, e.pid, key, p);
    }
  }

  lemma OnlyWritersTouchAKey(s: State, e: Event, key: string -> string, k: string)
    requires !WritesKey(s, e, key, k)
    ensures Lookup(Step(s, e, key).fullDir, k) == Lookup(s.fullDir, k) && Lookup(Step(s, e, key).compactDir, k) == Lookup(s.compactDir, k)
  {
  }

  lemma QuietStepKeepsFiles(s: State, e: Event, key: string -> string, k: string, p: Pid)
    requires e.pid != p && !WritesKey(s, e, key, k) && p in s.procs
    ensures
      var t := Step(s, e, key);
      && Lookup(t.fullDir, k) == Lookup(s.fullDir, k) && Lookup(t.compactDir, k) == Lookup(s.compactDir, k)
      && p in t.procs && t.procs[p] == s.procs[p]
  {
    OthersKeepTheirPhase(s, e, key, p);
    OnlyWritersTouchAKey(s, e, key, k);
  }

  lemma {:induction false} QuietKeepsFiles(s: State, events: seq<Event>, key: string -> string, k: string, p: Pid)
    requires Quiet(s, events, key, k, p) && p in s.procs
    ensures
      var t := Run(s, events, key);
      && Lookup(t.fullDir, k) == Lookup(s.fullDir, k) && Lookup(t.compactDir, k) == Lookup(s.compactDir, k)
      && p in t.procs && t.procs[p] == s.procs[p]
  {
    if events != [] {
      var n := |events| - 1;
      QuietKeepsFiles(s, events[..n], key, k, p);
      QuietStepKeepsFiles(Run(s, events[..n], key), events[n], key, k, p);
    }
  }

  /** A publication that no other writer of its key interrupts is what the next
      reader gets, whatever else ran in between; a failed extraction stays hidden. */
  lemma UninterruptedPublicationIsRead(s: State, p: Pid, between: seq<Event>, after: seq<Event>, key: string -> string)
    requires p in s.procs && s.procs[p].Publishing?
    requires s.procs[p].pub.generation != "" && s.procs[p].pub.generatedAt != ""
    requires
      var k := key(s.procs[p].pub.articleId);
      var s1 := Step(s, Event(p, Advance), key);
      && Quiet(s1, between, key, k, p)
      && Quiet(Step(Run(s1, between, key), Event(p, Advance), key), after, key, k, p)
    ensures
      var pub := s.procs[p].pub;
      var s1 := Step(s, Event(p, Advance), key);
      var s2 := Step(Run(s1, between, key), Event(p, Advance), key);
      PairAt(Run(s2, after, key), key, pub.articleId, pub.contentHash) ==
        if pub.full.retryable || pub.compact.retryable then None
        else Some(Pair(pub.generation, pub.generatedAt, pub.contentHash, pub.full, pub.compact))
  {
    var k := key(s.procs[p].pub.articleId);
    var s1 := Step(s, Event(p, Advance), key);
    QuietKeepsFiles(s1, between, key, k, p);
    var s2 := Step(Run(s1, between, key), Event(p, Advance), key);
    QuietKeepsFiles(s2, after, key, k, p);
  }

  /** The price of having no lock: two whole publications whose replaces cross
      leave no readable pair at all. */
  lemma CrossedPublicationsHideEachOther(s: State, p: Pid, q: Pid, key: string -> string) returns (events: seq<Event>)
    requires p in s.procs && q in s.procs && p != q && s.procs[p].Publishing? && s.procs[q].Publishing?
    requires key(s.procs[p].pub.articleId) == key(s.procs[q].pub.articleId)
    requires s.procs[p].pub.generation != s.procs[q].pub.generation
    ensures forall a, h | key(a) == key(s.procs[p].pub.articleId) :: PairAt(Run(s, events, key), key, a, h) == None
    ensures var t := Run(s, events, key); p in t.procs && q in t.procs && t.procs[p].Reading? && t.procs[q].Reading?
  {
    var e0, e1 := Event(p, Advance), Event(q, Advance);
    events := [e0, e1, e1, e0];
    var k := key(s.procs[p].pub.articleId);
    assert events[..3] == [e0, e1, e1] && events[..3][..2] == [e0, e1] && events[..3][..2][..1] == [e0] && events[..3][..2][..1][..0] == [];
    var s1 := Step(s, e0, key);
    assert Run(s, events[..3][..2][..1], key) == s1;
    var s2 := Step(s1, e1, key);
    assert Run(s, events[..3][..2], key) == s2 && s2.fullDir[k] == FullOf(s.procs[q].pub);
    var s3 := Step(s2, e1, key);
    assert Run(s, events[..3], key) == s3;
    var s4 := Step(s3, e0, key);
    assert s4.fullDir[k] == FullOf(s.procs[q].pub) && s4.compactDir[k] == CompactOf(s.procs[p].pub);
  }

  // ---- what readers and writers are told ------------------------------

  /** Whatever the others do, and then one step of this process. */
  function Next(s: State, others: seq<Event>, p: Pid, key: string -> string): State {
    Step(Run(s, others, key), Event(p, Advance), key)
  }

  predicate IsAt(s: State, p: Pid, proc: Proc) {
    p in s.procs && s.procs[p] == proc
  }

  /** The two files of a key, as they are now. */
  predicate FilesAre(s: State, k: string, full: Option<Envelope>, compact: Option<Envelope>) {
    Lookup(s.fullDir, k) == full && Lookup(s.compactDir, k) == compact
  }

  /** A read that no writer of its key interrupts, whatever else runs meanwhile. */
  predicate Undisturbed(s: State, others: seq<Event>, more: seq<Event>, key: string -> string, a: string, p: Pid) {
    Quiet(s, others, key, key(a), p) && Quiet(Next(s, others, p, key), more, key, key(a), p)
  }

  lemma ReadsTheFiles(s: State, p: Pid, others: seq<Event>, more: seq<Event>, key: string -> string,
                      full: Option<Envelope>, compact: Option<Envelope>)
    requires p in s.procs && s.procs[p].Reading? && FilesAre(s, key(s.procs[p].articleId), full, compact)
    requires Undisturbed(s, others, more, key, s.procs[p].articleId, p)
    ensures
      var r := s.procs[p];
      var late := Run(Next(s, others, p, key), more, key);
      && p in late.procs
      && Next(Next(s, others, p, key), more, p, key) ==
           FinishRead(late, p, r.purpose, r.articleId, r.contentHash,
                      LoadPair(full, compact, r.articleId, r.contentHash, r.purpose.Verify? && r.purpose.allowRetryable))
  {
    var k := key(s.procs[p].articleId);
    QuietKeepsFiles(s, others, key, k, p);
    QuietKeepsFiles(Next(s, others, p, key), more, key, k, p);
  }

  /** A loader reports the pair of its article and content when the two files are
      halves of one publication of them, and otherwise that there is none. */
  lemma LoadersAreTold(s: State, p: Pid, a: string, h: string, others: seq<Event>, more: seq<Event>, key: string -> string,
                       one: Publication, other: Publication)
    requires IsAt(s, p, Reading(Load, a, h)) && Undisturbed(s, others, more, key, a, p)
    requires FilesAre(s, key(a), Some(FullOf(one)), Some(CompactOf(other))) && one.generation != "" && one.generatedAt != ""
    requires one.generation == other.generation ==> one == other
    ensures
      var pair := if one == other && one.articleId == a && one.contentHash == h && !one.full.retryable && !one.compact.retryable
                  then Some(Pair(one.generation, one.generatedAt, h, one.full, one.compact)) else None;
      Next(Next(s, others, p, key), more, p, key).outcomes == Run(Next(s, others, p, key), more, key).outcomes + [Loaded(a, h, pair)]
  {
    ReadsTheFiles(s, p, others, more, key, Some(FullOf(one)), Some(CompactOf(other)));
  }

  /** A writer checks its work by reading it.  It reports it as generated when its
      own two halves are there and nothing in them is retryable; otherwise it looks
      again, and then reports it as retryable, or as failed when another writer's
      half is there. */
  lemma WritersAreTold(s: State, p: Pid, pub: Publication, again: bool, others: seq<Event>, more: seq<Event>, key: string -> string,
                       other: Publication)
    requires IsAt(s, p, Reading(Verify(pub, again), pub.articleId, pub.contentHash))
    requires Undisturbed(s, others, more, key, pub.articleId, p)
    requires FilesAre(s, key(pub.articleId), Some(FullOf(pub)), Some(CompactOf(other))) && pub.generation != "" && pub.generatedAt != ""
    requires pub.generation == other.generation ==> pub == other
    ensures
      var late := Run(Next(s, others, p, key), more, key);
      var done := Next(Next(s, others, p, key), more, p, key);
      var whole := Pair(pub.generation, pub.generatedAt, pub.contentHash, pub.full, pub.compact);
      var retryable := pub.full.retryable || pub.compact.retryable;
      if other == pub && !(retryable && !again) then
        done.outcomes == late.outcomes + [if again then Retryable(pub, whole) else Generated(pub, whole)] && IsAt(done, p, Idle)
      else if again then
        done.outcomes == late.outcomes + [Failed(pub)] && IsAt(done, p, Idle)
      else
        done.outcomes == late.outcomes && IsAt(done, p, Reading(Verify(pub, true), pub.articleId, pub.contentHash))
  {
    ReadsTheFiles(s, p, others, more, key, Some(FullOf(pub)), Some(CompactOf(other)));
  }

  /** A process that dies leaves the files as they are, one of them replaced or
      not. */
  lemma CrashesLeaveTheFiles(s: State, p: Pid, key: string -> string)
    requires p in s.procs
    ensures Step(s, Event(p, Crash), key) == s.(procs := s.procs[p := Idle])
  {
  }

  /** Without anyone in between: a new publication is written, checked and
      reported, and a process at rest can begin a read. */
  lemma PublishersWriteBothFiles(s: State, p: Pid, pub: Publication, key: string -> string)
    requires IsAt(s, p, Idle) && pub.generation != "" && pub.generatedAt != "" && pub.generation !in s.published
    ensures
      var begun := Step(s, Event(p, Publish(pub)), key);
      var written := Next(Next(begun, [], p, key), [], p, key);
      && pub.generation in written.published && written.published[pub.generation] == pub
      && FilesAre(written, key(pub.articleId), Some(FullOf(pub)), Some(CompactOf(pub)))
      && IsAt(written, p, Reading(Verify(pub, false), pub.articleId, pub.contentHash))
    ensures forall a, h :: IsAt(Step(s, Event(p, BeginLoad(a, h)), key), p, Reading(Load, a, h))
  {
  }
}
