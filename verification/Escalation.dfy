/** The escalation loop of the language-model extractor: a bare empty reply is
    asked again with a nudge, then put to the next backend.

    A model is an arbitrary function from the calls made so far to an answer. */
module Escalation {
  import opened Text

  datatype Call = Call(backend: nat, nudge: bool)

  /** `reason` is empty when an empty reply gives none. */
  datatype Shape = HasUnits | UnitsNotAList | NotAnObject | Empty(reason: string)

  /** `failure` is what the backend holds as its last failure after the call. */
  datatype Reply = NotOk(error: string) | Replied(shape: Shape, failure: Option<string>)

  datatype Answer = Raises(error: string) | Answers(reply: Reply)

  type Oracle = seq<Call> -> Answer

  predicate Bare(r: Reply) {
    r.Replied? && r.shape.Empty? && r.shape.reason == ""
  }

  /** `judged` are the replies that were looked at: one for each prompt put. */
  datatype Trace = Trace(calls: seq<Call>, judged: seq<Reply>, raised: Option<string>)

  const START := Trace([], [], None)

  /** One prompt to one backend, once more when the reply is not usable. */
  function Put(o: Oracle, t: Trace, call: Call): Trace {
    var once := t.calls + [call];
    match o(once)
    case Raises(e) => Trace(once, t.judged, Some(e))
    case Answers(r) =>
      if r.Replied? then Trace(once, t.judged + [r], None)
      else
        var twice := once + [call];
        match o(twice)
        case Raises(e) => Trace(twice, t.judged, Some(e))
        case Answers(again) => Trace(twice, t.judged + [again], None)
  }

  /** Only a bare empty reply, without a failure behind it, is worth a nudge. */
  predicate Inconclusive(t: Trace) {
    t.raised.None? && t.judged != [] && Bare(t.judged[|t.judged| - 1])
  }

  predicate WantsNudge(t: Trace) {
    Inconclusive(t) && t.judged[|t.judged| - 1].failure.None?
  }

  function Consult(o: Oracle, t: Trace, b: nat): Trace {
    var first := Put(o, t, Call(b, false));
    if WantsNudge(first) then Put(o, first, Call(b, true)) else first
  }

  /** Backends `b` to `n`, until one is conclusive. */
  function Escalate(o: Oracle, t: Trace, b: nat, n: nat): Trace
    requires b <= n
    decreases n - b
  {
    if b == n then t
    else
      var u := Consult(o, t, b);
      if Inconclusive(u) then Escalate(o, u, b + 1, n) else u
  }

  function Failures(judged: seq<Reply>): seq<string> {
    if judged == [] then []
    else
      var r := judged[|judged| - 1];
      Failures(judged[..|judged| - 1]) + if Bare(r) && r.failure.Some? then [r.failure.value] else []
  }

  datatype Outcome =
    | Raised(error: string) | Unavailable | BackendFailed(detail: string) | LlmFailed(error: string)
    | BadShape | BadUnits | NoUnits(reason: string) | Units

  function OutcomeOf(t: Trace): Outcome {
    if t.raised.Some? then Raised(t.raised.value)
    else if t.judged == [] then Unavailable
    else
      var last, failures := t.judged[|t.judged| - 1], Failures(t.judged);
      if Bare(last) && failures != [] then BackendFailed(failures[|failures| - 1])
      else
        match last
        case NotOk(e) => LlmFailed(e)
        case Replied(NotAnObject, _) => BadShape
        case Replied(UnitsNotAList, _) => BadUnits
        case Replied(Empty(reason), _) => NoUnits(reason)
        case Replied(HasUnits, _) => Units
  }

  /** One completion, and one more when the reply is not usable. */
  method Complete(o: Oracle, calls: seq<Call>, call: Call, ghost t: Trace) returns (more: seq<Call>, answer: Answer)
    requires calls == t.calls && t.raised.None?
    ensures
      Put(o, t, call) == match answer
                         case Raises(e) => Trace(more, t.judged, Some(e))
                         case Answers(r) => Trace(more, t.judged + [r], None)
  {
    more := calls + [call];
    answer := o(more);
    if answer.Answers? && answer.reply.NotOk? {
      more := more + [call];
      answer := o(more);
    }
  }

  lemma FailuresGrow(judged: seq<Reply>, r: Reply)
    ensures Failures(judged + [r]) == Failures(judged) + if Bare(r) && r.failure.Some? then [r.failure.value] else []
  {
    assert (judged + [r])[..|judged|] == judged;
  }

  /** The prompt, and then the nudge, to one backend. */
  method Ask(o: Oracle, b: nat, calls: seq<Call>, details: seq<string>, ghost t: Trace)
    returns (more: seq<Call>, failures: seq<string>, answer: Answer, ghost u: Trace)
    requires calls == t.calls && t.raised.None? && details == Failures(t.judged)
    ensures u == Consult(o, t, b) && more == u.calls && failures == Failures(u.judged)
    ensures answer.Raises? ==> u.raised == Some(answer.error)
    ensures answer.Answers? ==> u.raised.None? && u.judged != [] && u.judged[|u.judged| - 1] == answer.reply
  {
    failures := details;
    u := Put(o, t, Call(b, false));
    more, answer := Complete(o, calls, Call(b, false), t);
    if answer.Answers? {
      FailuresGrow(t.judged, answer.reply);
      if Bare(answer.reply) {
        if answer.reply.failure.Some? {
          failures := failures + [answer.reply.failure.value];
        } else {
          ghost var v := u;
          u := Put(o, v, Call(b, true));
          more, answer := Complete(o, more, Call(b, true), v);
          if answer.Answers? {
            FailuresGrow(v.judged, answer.reply);
            if Bare(answer.reply) && answer.reply.failure.Some? {
              failures := failures + [answer.reply.failure.value];
            }
          }
        }
      }
    }
  }

  /** The loop, with its flag and its list of failures behind empty replies. */
  method Extract(o: Oracle, backends: nat) returns (out: Outcome)
    ensures out == OutcomeOf(Escalate(o, START, 0, backends))
  {
    ghost var t := START;
    var calls, details, exhausted := [], [], true;
    var result: Option<Reply> := None;
    var b := 0;
    while b < backends && exhausted
      invariant 0 <= b <= backends && calls == t.calls && t.raised.None? && details == Failures(t.judged)
      invariant result == if t.judged == [] then None else Some(t.judged[|t.judged| - 1])
      invariant if result.Some? then exhausted == Bare(result.value) else exhausted
      invariant Escalate(o, START, 0, backends) == if exhausted then Escalate(o, t, b, backends) else t
    {
      var answer;
      calls, details, answer, t := Ask(o, b, calls, details, t);
      if answer.Raises? {
        return Raised(answer.error);
      }
      result, exhausted := Some(answer.reply), Bare(answer.reply);
      b := b + 1;
    }
    out := Report(result, exhausted, details);
  }

  method Report(result: Option<Reply>, exhausted: bool, details: seq<string>) returns (out: Outcome)
    requires result.Some? ==> exhausted == Bare(result.value)
    ensures forall judged, calls | details == Failures(judged) && result == (if judged == [] then None else Some(judged[|judged| - 1])) ::
              out == OutcomeOf(Trace(calls, judged, None))
  {
    if result.None? {
      return Unavailable;
    }
    if exhausted && details != [] {
      return BackendFailed(details[|details| - 1]);
    }
    match result.value {
      case NotOk(e) => out := LlmFailed(e);
      case Replied(shape, _) =>
        match shape {
          case NotAnObject => out := BadShape;
          case UnitsNotAList => out := BadUnits;
          case Empty(reason) => out := NoUnits(reason);
          case HasUnits => out := Units;
        }
    }
  }

  // ---- how many calls -------------------------------------------------

  function CallsTo(calls: seq<Call>, b: nat): nat {
    if calls == [] then 0
    else CallsTo(calls[..|calls| - 1], b) + if calls[|calls| - 1].backend == b then 1 else 0
  }

  lemma OneMoreCall(calls: seq<Call>, call: Call, b: nat)
    ensures CallsTo(calls + [call], b) == CallsTo(calls, b) + if call.backend == b then 1 else 0
  {
    assert (calls + [call])[..|calls|] == calls;
  }

  lemma PutCalls(o: Oracle, t: Trace, call: Call, b: nat)
    ensures CallsTo(t.calls, b) <= CallsTo(Put(o, t, call).calls, b) <= CallsTo(t.calls, b) + if call.backend == b then 2 else 0
  {
    OneMoreCall(t.calls, call, b);
    OneMoreCall(t.calls + [call], call, b);
  }

  /** At most so many calls to a backend came to the trace. */
  predicate MoreCalls(t: Trace, u: Trace, k: nat, more: nat) {
    CallsTo(u.calls, k) <= CallsTo(t.calls, k) + more
  }

  lemma ConsultCalls(o: Oracle, t: Trace, b: nat, k: nat)
    ensures MoreCalls(t, Consult(o, t, b), k, if b == k then 4 else 0)
  {
    PutCalls(o, t, Call(b, false), k);
    PutCalls(o, Put(o, t, Call(b, false)), Call(b, true), k);
  }

  lemma EscalateOne(o: Oracle, t: Trace, b: nat, n: nat)
    requires b < n
    ensures Escalate(o, t, b, n) == if Inconclusive(Consult(o, t, b)) then Escalate(o, Consult(o, t, b), b + 1, n) else Consult(o, t, b)
  {
  }

  lemma MoreAndMore(t: Trace, u: Trace, v: Trace, k: nat, b: nat, n: nat)
    requires b < n && MoreCalls(t, u, k, if b == k then 4 else 0) && MoreCalls(u, v, k, if b + 1 <= k < n then 4 else 0)
    ensures MoreCalls(t, v, k, if b <= k < n then 4 else 0)
  {
  }

  lemma {:induction false} EscalateCalls(o: Oracle, t: Trace, b: nat, n: nat, k: nat)
    requires b <= n
    ensures MoreCalls(t, Escalate(o, t, b, n), k, if b <= k < n then 4 else 0)
    decreases n - b
  {
    if b < n {
      var u := Consult(o, t, b);
      ConsultCalls(o, t, b, k);
      EscalateOne(o, t, b, n);
      EscalateCalls(o, u, b + 1, n, k);
      MoreAndMore(t, u, if Inconclusive(u) then Escalate(o, u, b + 1, n) else u, k, b, n);
    }
  }

  /** Whatever the models answer, no backend is called more than four times. */
  lemma FourCallsABackend(o: Oracle, n: nat, k: nat)
    ensures CallsTo(Escalate(o, START, 0, n).calls, k) <= if k < n then 4 else 0
  {
    EscalateCalls(o, START, 0, n, k);
  }

  // ---- what an outcome means ------------------------------------------

  /** Every reply but the last was a bare empty one. */
  predicate BareSoFar(t: Trace) {
    forall i | 0 <= i < |t.judged| - 1 :: Bare(t.judged[i])
  }

  predicate AllBare(t: Trace) {
    forall i | 0 <= i < |t.judged| :: Bare(t.judged[i])
  }

  lemma {:induction false} EscalateShape(o: Oracle, t: Trace, b: nat, n: nat)
    requires b <= n && AllBare(t) && t.raised.None? && (b > 0 ==> t.judged != [])
    ensures BareSoFar(Escalate(o, t, b, n))
    ensures n > 0 && Escalate(o, t, b, n).raised.None? ==> Escalate(o, t, b, n).judged != []
    ensures t.judged <= Escalate(o, t, b, n).judged
    decreases n - b
  {
    if b < n {
      var u := Consult(o, t, b);
      assert BareSoFar(u) && t.judged <= u.judged && (u.raised.None? ==> u.judged != []);
      EscalateOne(o, t, b, n);
      if Inconclusive(u) {
        assert AllBare(u);
        EscalateShape(o, u, b + 1, n);
      }
    }
  }

  lemma {:induction false} FailuresAreReplies(judged: seq<Reply>)
    ensures Failures(judged) != [] <==> exists i | 0 <= i < |judged| :: Bare(judged[i]) && judged[i].failure.Some?
  {
    if judged != [] {
      FailuresAreReplies(judged[..|judged| - 1]);
      if i :| 0 <= i < |judged| && Bare(judged[i]) && judged[i].failure.Some? {
        assert i == |judged| - 1 || judged[..|judged| - 1][i] == judged[i];
      }
    }
  }

  predicate Retryable(out: Outcome) {
    !out.NoUnits? && !out.Units?
  }

  predicate GaveReason(r: Reply) {
    r.Replied? && r.shape.Empty? && r.shape.reason != ""
  }

  lemma NoUnitsOutcome(t: Trace)
    requires BareSoFar(t)
    ensures OutcomeOf(t).NoUnits? <==>
              && t.raised.None? && t.judged != []
              && (GaveReason(t.judged[|t.judged| - 1]) || (AllBare(t) && forall i | 0 <= i < |t.judged| :: t.judged[i].failure.None?))
  {
    FailuresAreReplies(t.judged);
  }

  /** "No extractable units", which is not retried, is reported exactly when the
      last reply gave its reason for being empty, or when every reply of every
      backend was bare and none had a backend failure behind it. */
  lemma NoUnitsIsNeverAFailure(o: Oracle, n: nat)
    ensures
      var t := Escalate(o, START, 0, n);
      OutcomeOf(t).NoUnits? <==>
        && t.raised.None? && t.judged != []
        && (GaveReason(t.judged[|t.judged| - 1]) || (AllBare(t) && forall i | 0 <= i < |t.judged| :: t.judged[i].failure.None?))
  {
    EscalateShape(o, START, 0, n);
    NoUnitsOutcome(Escalate(o, START, 0, n));
  }

  /** A backend failure behind an empty reply is reported, and so retried, unless
      a later reply is conclusive; units are never passed over. */
  lemma FailuresAreRetried(o: Oracle, n: nat)
    ensures
      var t := Escalate(o, START, 0, n);
      && (t.raised.None? && AllBare(t) && (exists i | 0 <= i < |t.judged| :: t.judged[i].failure.Some?) ==>
            OutcomeOf(t).BackendFailed? && Retryable(OutcomeOf(t)))
      && (forall i | 0 <= i < |t.judged| && t.judged[i].Replied? && t.judged[i].shape.HasUnits? ::
            i == |t.judged| - 1 && (t.raised.None? ==> OutcomeOf(t).Units?))
  {
    var t := Escalate(o, START, 0, n);
    EscalateShape(o, START, 0, n);
    FailuresAreReplies(t.judged);
  }

  // ---- which call is made, said of the answers ------------------------

  /** The call after these, which end in an answer: the same once more after the
      first unusable reply, a nudge after a bare empty reply to a prompt with no
      failure behind it, the next backend after any other bare one. */
  function NextCall(o: Oracle, calls: seq<Call>, n: nat): Option<Call> {
    if calls == [] then (if n > 0 then Some(Call(0, false)) else None)
    else
      var last := calls[|calls| - 1];
      var again := |calls| > 1 && calls[|calls| - 2] == last;
      match o(calls)
      case Answers(NotOk(_)) => if again then None else Some(last)
      case Answers(Replied(Empty(""), failure)) =>
        if failure.None? && !last.nudge then Some(Call(last.backend, true))
        else if last.backend + 1 < n then Some(Call(last.backend + 1, false))
        else None
      case _ => None
  }

  predicate Follows(o: Oracle, calls: seq<Call>, n: nat) {
    calls == [] || (Follows(o, calls[..|calls| - 1], n) && NextCall(o, calls[..|calls| - 1], n) == Some(calls[|calls| - 1]))
  }

  lemma OneMoreFollows(o: Oracle, calls: seq<Call>, call: Call, n: nat)
    requires Follows(o, calls, n) && NextCall(o, calls, n) == Some(call)
    ensures Follows(o, calls + [call], n)
  {
    assert (calls + [call])[..|calls|] == calls;
  }

  /** The last call repeats the one before it. */
  predicate Repeats(calls: seq<Call>) {
    |calls| > 1 && calls[|calls| - 2] == calls[|calls| - 1]
  }

  /** A trace that ends in a reply that was looked at, or in an exception. */
  predicate Settled(o: Oracle, t: Trace) {
    && t.calls != []
    && match o(t.calls)
       case Raises(e) => t.raised == Some(e)
       case Answers(r) => t.raised.None? && t.judged != [] && t.judged[|t.judged| - 1] == r && (r.NotOk? ==> Repeats(t.calls))
  }

  lemma PutFollows(o: Oracle, t: Trace, call: Call, n: nat)
    requires Follows(o, t.calls, n) && NextCall(o, t.calls, n) == Some(call)
    requires t.calls != [] ==> t.calls[|t.calls| - 1] != call
    ensures
      var u := Put(o, t, call);
      Follows(o, u.calls, n) && Settled(o, u) && u.calls[|u.calls| - 1] == call
  {
    OneMoreFollows(o, t.calls, call, n);
    var once := t.calls + [call];
    if o(once).Answers? && o(once).reply.NotOk? {
      OneMoreFollows(o, once, call, n);
    }
  }

  /** Where the escalation goes on, after the backends before `b`. */
  predicate Ongoing(o: Oracle, t: Trace, b: nat, n: nat) {
    && Follows(o, t.calls, n) && t.raised.None? && NextCall(o, t.calls, n) == (if b < n then Some(Call(b, false)) else None)
    && if b == 0 then t == START else Settled(o, t) && t.calls[|t.calls| - 1].backend < b
  }

  predicate Ended(o: Oracle, t: Trace, n: nat) {
    Follows(o, t.calls, n) && NextCall(o, t.calls, n).None? && if n == 0 then t == START else Settled(o, t)
  }

  /** The trace ends with this call to a backend, and is settled. */
  predicate EndsWith(o: Oracle, t: Trace, call: Call, n: nat) {
    Follows(o, t.calls, n) && Settled(o, t) && t.calls[|t.calls| - 1] == call
  }

  lemma ConclusiveEnds(o: Oracle, t: Trace, call: Call, n: nat)
    requires EndsWith(o, t, call, n) && !Inconclusive(t)
    ensures NextCall(o, t.calls, n).None?
  {
  }

  lemma BareGoesOn(o: Oracle, t: Trace, call: Call, n: nat)
    requires EndsWith(o, t, call, n) && Inconclusive(t)
    ensures NextCall(o, t.calls, n) ==
              if WantsNudge(t) && !call.nudge then Some(Call(call.backend, true))
              else if call.backend + 1 < n then Some(Call(call.backend + 1, false)) else None
  {
  }

  lemma ConsultEnds(o: Oracle, t: Trace, b: nat, n: nat)
    requires b < n && Ongoing(o, t, b, n)
    ensures
      var u := Consult(o, t, b);
      EndsWith(o, u, Call(b, false), n) || EndsWith(o, u, Call(b, true), n)
    ensures
      var u := Consult(o, t, b);
      Inconclusive(u) && !u.calls[|u.calls| - 1].nudge ==> !WantsNudge(u)
  {
    PutFollows(o, t, Call(b, false), n);
    var first := Put(o, t, Call(b, false));
    if WantsNudge(first) {
      BareGoesOn(o, first, Call(b, false), n);
      PutFollows(o, first, Call(b, true), n);
    }
  }

  lemma ConsultFollows(o: Oracle, t: Trace, b: nat, n: nat, u: Trace)
    requires b < n && Ongoing(o, t, b, n) && u == Consult(o, t, b)
    ensures if Inconclusive(u) then Ongoing(o, u, b + 1, n) else Ended(o, u, n)
  {
    ConsultEnds(o, t, b, n);
    var call := u.calls[|u.calls| - 1];
    if Inconclusive(u) {
      BareGoesOn(o, u, call, n);
    } else {
      ConclusiveEnds(o, u, call, n);
    }
  }

  lemma {:induction false} EscalateFollows(o: Oracle, t: Trace, b: nat, n: nat)
    requires b <= n && Ongoing(o, t, b, n)
    ensures Ended(o, Escalate(o, t, b, n), n)
    decreases n - b
  {
    if b < n {
      ConsultFollows(o, t, b, n, Consult(o, t, b));
      EscalateOne(o, t, b, n);
      if Inconclusive(Consult(o, t, b)) {
        EscalateFollows(o, Consult(o, t, b), b + 1, n);
      }
    }
  }

  /** What the failures of bare empty replies came to. */
  function LatestDetail(o: Oracle, calls: seq<Call>): Option<string> {
    if calls == [] then None
    else
      match o(calls)
      case Answers(Replied(Empty(""), Some(detail))) => Some(detail)
      case _ => LatestDetail(o, calls[..|calls| - 1])
  }

  /** What the last answer says, with the failures behind the bare ones. */
  function Reported(o: Oracle, calls: seq<Call>): Outcome {
    if calls == [] then Unavailable
    else
      match o(calls)
      case Raises(e) => Raised(e)
      case Answers(NotOk(e)) => LlmFailed(e)
      case Answers(Replied(NotAnObject, _)) => BadShape
      case Answers(Replied(UnitsNotAList, _)) => BadUnits
      case Answers(Replied(HasUnits, _)) => Units
      case Answers(Replied(Empty(reason), _)) =>
        if reason == "" && LatestDetail(o, calls).Some? then BackendFailed(LatestDetail(o, calls).value) else NoUnits(reason)
  }

  function LastOf(failures: seq<string>): Option<string> {
    if failures == [] then None else Some(failures[|failures| - 1])
  }

  lemma DetailMore(o: Oracle, calls: seq<Call>, call: Call)
    ensures
      LatestDetail(o, calls + [call]) ==
        match o(calls + [call])
        case Answers(Replied(Empty(""), Some(detail))) => Some(detail)
        case _ => LatestDetail(o, calls)
  {
    assert (calls + [call])[..|calls|] == calls;
  }

  /** Both end in the same detail. */
  predicate SameDetail(o: Oracle, t: Trace) {
    LastOf(Failures(t.judged)) == LatestDetail(o, t.calls)
  }

  lemma JudgedDetail(o: Oracle, t: Trace, u: Trace, call: Call, r: Reply)
    requires SameDetail(o, t) && u.calls == t.calls + [call] && u.judged == t.judged + [r] && o(u.calls) == Answers(r)
    ensures SameDetail(o, u)
  {
    DetailMore(o, t.calls, call);
    FailuresGrow(t.judged, r);
  }

  lemma UnjudgedDetail(o: Oracle, t: Trace, u: Trace, call: Call)
    requires SameDetail(o, t) && u.calls == t.calls + [call] && u.judged == t.judged
    requires o(u.calls).Raises? || o(u.calls).reply.NotOk?
    ensures SameDetail(o, u)
  {
    DetailMore(o, t.calls, call);
  }

  /** The call is not judged, or ends the prompt. */
  lemma PutDetails(o: Oracle, t: Trace, call: Call)
    requires SameDetail(o, t)
    ensures SameDetail(o, Put(o, t, call))
  {
    var once := t.calls + [call];
    match o(once)
    case Raises(_) => UnjudgedDetail(o, t, Put(o, t, call), call);
    case Answers(Replied(_, _)) => JudgedDetail(o, t, Put(o, t, call), call, o(once).reply);
    case Answers(NotOk(_)) =>
      var between := Trace(once, t.judged, None);
      UnjudgedDetail(o, t, between, call);
      match o(once + [call])
      case Raises(_) => UnjudgedDetail(o, between, Put(o, t, call), call);
      case Answers(again) => JudgedDetail(o, between, Put(o, t, call), call, again);
  }

  lemma {:induction false} EscalateDetails(o: Oracle, t: Trace, b: nat, n: nat)
    requires b <= n && SameDetail(o, t)
    ensures SameDetail(o, Escalate(o, t, b, n))
    decreases n - b
  {
    if b < n {
      PutDetails(o, t, Call(b, false));
      PutDetails(o, Put(o, t, Call(b, false)), Call(b, true));
      EscalateOne(o, t, b, n);
      EscalateDetails(o, Consult(o, t, b), b + 1, n);
    }
  }

  lemma SettledIsReported(o: Oracle, t: Trace)
    requires Settled(o, t) && SameDetail(o, t)
    ensures OutcomeOf(t) == Reported(o, t.calls)
  {
  }

  /** The calls of an extraction are exactly those that the answers call for, in
      order, from the first prompt on until none is called for; the outcome is
      what the last answer and the latest failure behind a bare reply say. */
  lemma CallsFollowTheAnswers(o: Oracle, n: nat)
    ensures
      var t := Escalate(o, START, 0, n);
      && Follows(o, t.calls, n) && NextCall(o, t.calls, n).None?
      && OutcomeOf(t) == Reported(o, t.calls)
  {
    EscalateFollows(o, START, 0, n);
    EscalateDetails(o, START, 0, n);
    if n > 0 {
      SettledIsReported(o, Escalate(o, START, 0, n));
    }
  }
}
