/** The two completion loops of the OpenAI-compatible backend.

    A provider is an arbitrary function from the requests made so far to a reply,
    so any behaviour of any provider in a run is one such function. */
module Completion {
  import opened Text
  import opened Breaker

  const MAX_RETRY_TOKENS := 16384
  const EMPTY_LENGTH_RETRY_TOKENS := 8192
  const MAX_ATTEMPTS: nat := 3

  datatype Failed = Failed(errorType: string, httpStatus: Option<int>, contentFilter: bool, endpoint: nat, attempt: nat)

  /** `text` is the usable text of a response, empty when there is none. */
  datatype Reply =
    | Raised(errorType: string, httpStatus: Option<int>, contentFilter: bool)
    | Response(lengthStop: bool, text: string)

  datatype Endpoint = Ready | NoClient | ClientRaises(errorType: string, httpStatus: Option<int>, contentFilter: bool)

  datatype Request = Request(endpoint: nat, attempt: nat, maxTokens: nat)

  type Provider = seq<Request> -> Reply

  // ---- judging one reply ----------------------------------------------

  predicate EndsWith(s: string, suffix: string) {
    |suffix| <= |s| && s[|s| - |suffix|..] == suffix
  }

  predicate LooksTruncated(text: string) {
    var stripped := text[..Trail(text, 0, |text|)];
    && (Contains(stripped, "{") || Contains(stripped, "[") || Contains(stripped, "```"))
    && !(EndsWith(stripped, "}") || EndsWith(stripped, "]") || EndsWith(stripped, "```"))
  }

  predicate RetryableStatus(errorType: string, httpStatus: Option<int>) {
    match httpStatus
    case Some(status) => status in {408, 409, 429} || status >= 500
    case None => errorType in {"APIConnectionError", "APITimeoutError", "APIStatusError", "TimeoutError", "ConnectError", "ReadTimeout"}
  }

  datatype Verdict = Answer(text: string) | Truncated(empty: bool) | Error(errorType: string, httpStatus: Option<int>, contentFilter: bool)

  function Judge(r: Reply): Verdict {
    match r
    case Raised(errorType, status, filter) => Error(errorType, status, filter)
    case Response(lengthStop, text) =>
      if lengthStop then Truncated(text == "")
      else if text == "" then Error("ValueError", None, false)
      else if LooksTruncated(text) then Truncated(false)
      else Answer(text)
  }

  predicate Capped(tokens: nat, empty: bool) {
    tokens >= MAX_RETRY_TOKENS || (empty && tokens >= EMPTY_LENGTH_RETRY_TOKENS)
  }

  function Doubled(tokens: nat): nat {
    if tokens * 2 < MAX_RETRY_TOKENS then tokens * 2 else MAX_RETRY_TOKENS
  }

  function TruncationFailure(endpoint: nat): Failed {
    Failed("LLMResponseTruncated", None, false, endpoint, 0)
  }

  const UNAVAILABLE := Failed("LLMClientUnavailable", None, false, 0, 0)
  const DEADLINE_EXCEEDED := Failed("LLMCompletionDeadlineExceeded", None, false, 0, 0)

  // ---- the unbounded loop as a function -------------------------------

  datatype Trace = Trace(requests: seq<Request>, failures: seq<Failed>, answer: Option<string>)

  /** What one attempt leads to: the endpoint is done with, or the loop goes on. */
  datatype Turn = Over(trace: Trace) | Again(trace: Trace, tokens: nat, truncated: bool)

  function WithTruncation(t: Trace, truncated: bool, ep: nat): Trace {
    if truncated then t.(failures := t.failures + [TruncationFailure(ep)]) else t
  }

  /** The turn that a reply leads to; `t` has its request already. */
  function Judged(v: Verdict, ep: nat, attempt: nat, tokens: nat, truncated: bool, t: Trace): Turn {
    match v
    case Answer(text) => Over(t.(answer := Some(text)))
    case Truncated(empty) =>
      if Capped(tokens, empty) then Over(WithTruncation(t, true, ep)) else Again(t, Doubled(tokens), true)
    case Error(errorType, status, filter) =>
      var u := t.(failures := t.failures + [Failed(errorType, status, filter, ep, attempt + 1)]);
      if RetryableStatus(errorType, status) && attempt + 1 < MAX_ATTEMPTS then Again(u, tokens, truncated)
      else Over(WithTruncation(u, truncated, ep))
  }

  function Take(p: Provider, ep: nat, attempt: nat, tokens: nat, truncated: bool, t: Trace): Turn {
    var requests := t.requests + [Request(ep, attempt, tokens)];
    Judged(Judge(p(requests)), ep, attempt, tokens, truncated, Trace(requests, t.failures, None))
  }

  function Tries(p: Provider, ep: nat, attempt: nat, tokens: nat, truncated: bool, t: Trace): Trace
    requires attempt <= MAX_ATTEMPTS
    decreases MAX_ATTEMPTS - attempt, tokens
  {
    if attempt == MAX_ATTEMPTS then WithTruncation(t, truncated, ep)
    else
      match Take(p, ep, attempt, tokens, truncated, t)
      case Over(u) => u
      case Again(u, more, cut) => Tries(p, ep, attempt + 1, more, cut, u)
  }

  function EndpointFrom(p: Provider, ep: nat, endpoint: Endpoint, tokens: nat, t: Trace): Trace {
    match endpoint
    case Ready => Tries(p, ep, 0, tokens, false, t)
    case NoClient => t.(failures := t.failures + [Failed("LLMClientUnavailable", None, false, ep, 0)])
    case ClientRaises(errorType, status, filter) => t.(failures := t.failures + [Failed(errorType, status, filter, ep, 0)])
  }

  /** Endpoints from `ep` on, in order, until one answers. */
  function Complete(p: Provider, endpoints: seq<Endpoint>, ep: nat, tokens: nat, t: Trace): Trace
    requires ep <= |endpoints|
    decreases |endpoints| - ep
  {
    if ep == |endpoints| || t.answer.Some? then t
    else Complete(p, endpoints, ep + 1, tokens, EndpointFrom(p, ep, endpoints[ep], tokens, t))
  }

  const NOTHING := Trace([], [], None)

  function TextOf(t: Trace): string {
    if t.answer.Some? then t.answer.value else "[]"
  }

  function FailureOf(t: Trace): Option<Failed> {
    if t.answer.Some? then None
    else if t.failures == [] then Some(UNAVAILABLE)
    else Some(t.failures[|t.failures| - 1])
  }

  // ---- the bounded loop's surroundings --------------------------------

  /** The callback before an attempt may raise, and may take time. */
  datatype Hook = Hook(raises: bool, takes: real)

  datatype World = World(provider: Provider, took: seq<Request> -> real, hook: seq<Request> -> Hook)

  /** A request as the clock saw it. */
  datatype Timed = Timed(start: real, timeout: real)

  /** Every request was started before the deadline and had to end by it, within
      what any one may take. */
  ghost predicate OnTime(timed: seq<Timed>, deadline: real, each: real) {
    forall i | 0 <= i < |timed| :: InTime(timed[i], deadline, each)
  }

  predicate InTime(t: Timed, deadline: real, each: real) {
    && t.start < deadline && t.timeout <= each && t.start + t.timeout <= deadline
    && (t.timeout == each || t.start + t.timeout == deadline)
  }

  function Min(a: real, b: real): real {
    if a <= b then a else b
  }

  /** How long a request really takes: never longer than its timeout. */
  function Elapsed(took: real, timeout: real): real {
    if Min(took, timeout) < 0.0 then 0.0 else Min(took, timeout)
  }

  /** The pause after a failed attempt; there is none after the last. */
  function Delay(attempt: nat): real {
    if attempt == 0 then 0.1 else if attempt == 1 then 0.2 else 0.0
  }

  /** The most time so many attempts on one endpoint can use. */
  function UsedBy(attempts: nat, wire: real, hookMax: real): real {
    if attempts == 0 then 0.0
    else UsedBy(attempts - 1, wire, hookMax) + hookMax + wire + Delay(attempts - 1)
  }

  function PerEndpoint(wire: real, hookMax: real): real {
    UsedBy(MAX_ATTEMPTS, wire, hookMax)
  }

  function Budget(endpoints: nat, each: real): real {
    if endpoints == 0 then 0.0 else each + Budget(endpoints - 1, each)
  }

  datatype Ending = Finished | Exhausted | HookRaised | Rejected

  /** What came of trying to send a request. */
  datatype Gate = Asked(verdict: Verdict) | Late | Halted

  class OpenAICompatibleBackend {
    const name: string
    const endpoints: seq<Endpoint>
    const maxTokens: nat
    const timeout: Option<real>
    const breaker: BackendCircuitBreaker
    var lastFailure: Option<Failed>
    var clock: real

    constructor (name: string, endpoints: seq<Endpoint>, maxTokens: nat, timeout: Option<real>, breaker: BackendCircuitBreaker, clock: real)
      ensures this.name == name && this.endpoints == endpoints && this.maxTokens == maxTokens
      ensures this.timeout == timeout && this.breaker == breaker && lastFailure == None && this.clock == clock
    {
      this.name, this.endpoints, this.maxTokens := name, endpoints, maxTokens;
      this.timeout, this.breaker, this.clock := timeout, breaker, clock;
      lastFailure := None;
    }

    /** One breaker record, and the last failure, for a trace that is over. */
    method Report(t: Trace) returns (text: string)
      requires breaker.Valid()
      modifies `lastFailure, breaker
      ensures breaker.Valid() && text == TextOf(t) && lastFailure == FailureOf(t)
      ensures breaker.history == old(breaker.history) + [Event(name, if t.answer.Some? then Success else Failure, clock)]
    {
      lastFailure := FailureOf(t);
      if t.answer.Some? {
        breaker.RecordSuccess(name, clock);
      } else {
        var _ := breaker.RecordFailure(name, clock);
      }
      text := TextOf(t);
    }

    method RunComplete(provider: Provider) returns (text: string, t: Trace)
      requires breaker.Valid()
      modifies this, breaker
      ensures breaker.Valid()
      ensures t == Complete(provider, endpoints, 0, maxTokens, NOTHING)
      ensures text == TextOf(t) && lastFailure == FailureOf(t)
      ensures breaker.history == old(breaker.history) + [Event(name, if t.answer.Some? then Success else Failure, clock)]
    {
      t := NOTHING;
      var ep := 0;
      while ep < |endpoints| && t.answer.None?
        invariant 0 <= ep <= |endpoints|
        invariant Complete(provider, endpoints, ep, maxTokens, t) == Complete(provider, endpoints, 0, maxTokens, NOTHING)
        invariant breaker.Valid() && breaker.history == old(breaker.history)
      {
        match endpoints[ep] {
          case Ready => t := TryEndpoint(provider, ep, t);
          case NoClient => t := t.(failures := t.failures + [Failed("LLMClientUnavailable", None, false, ep, 0)]);
          case ClientRaises(e, s, f) => t := t.(failures := t.failures + [Failed(e, s, f, ep, 0)]);
        }
        ep := ep + 1;
      }
      text := Report(t);
    }

    /** The attempts on one endpoint; pauses after a retryable failure. */
    method TryEndpoint(provider: Provider, ep: nat, before: Trace) returns (t: Trace)
      requires before.answer.None?
      modifies `clock
      ensures t == Tries(provider, ep, 0, maxTokens, false, before)
    {
      var requests, failures, tokens := before.requests, before.failures, maxTokens;
      var lastTruncated: Option<Failed> := None;
      var attempt := 0;
      ghost var whole := Tries(provider, ep, 0, maxTokens, false, before);
      while attempt < MAX_ATTEMPTS
        invariant attempt <= MAX_ATTEMPTS
        invariant lastTruncated.Some? ==> lastTruncated.value == TruncationFailure(ep)
        invariant Tries(provider, ep, attempt, tokens, lastTruncated.Some?, Trace(requests, failures, None)) == whole
      {
        requests := requests + [Request(ep, attempt, tokens)];
        match Judge(provider(requests)) {
          case Answer(text) =>
            return Trace(requests, failures, Some(text));
          case Truncated(empty) =>
            lastTruncated := Some(TruncationFailure(ep));
            if Capped(tokens, empty) {
              failures := failures + [TruncationFailure(ep)];
              lastTruncated := None;
              break;
            }
            tokens := Doubled(tokens);
          case Error(errorType, status, filter) =>
            failures := failures + [Failed(errorType, status, filter, ep, attempt + 1)];
            if !(RetryableStatus(errorType, status) && attempt + 1 < MAX_ATTEMPTS) {
              break;
            }
            clock := clock + Delay(attempt);
        }
        attempt := attempt + 1;
      }
      if lastTruncated.Some? {
        failures := failures + [lastTruncated.value];
      }
      t := Trace(requests, failures, None);
    }

    /** `complete_bounded`: one budget for the whole chain.  `hookMax` bounds the
        time of the callback before an attempt; `timed` is what the clock saw. */
    method RunBounded(w: World, total: real, wire: real, ghost hookMax: real)
      returns (text: string, t: Trace, timed: seq<Timed>, ending: Ending)
      requires breaker.Valid()
      requires hookMax >= 0.0 && forall h :: 0.0 <= w.hook(h).takes <= hookMax
      modifies this, breaker
      ensures breaker.Valid()
      ensures ending.Rejected? <==> total <= 0.0 || wire <= 0.0
      // the same requests, result, failure and breaker record as the unbounded loop
      ensures t.requests <= Complete(w.provider, endpoints, 0, maxTokens, NOTHING).requests
      ensures ending.Finished? ==>
                && t == Complete(w.provider, endpoints, 0, maxTokens, NOTHING)
                && text == TextOf(t) && lastFailure == FailureOf(t)
      ensures ending.Exhausted? ==>
                t.answer.None? && text == "[]" && lastFailure == Some(Failed("LLMCompletionDeadlineExceeded", None, false, 0, 0))
      ensures ending.HookRaised? ==> w.hook(t.requests).raises
      ensures
        breaker.history == old(breaker.history) +
          (if ending.Finished? || ending.Exhausted? then [Event(name, if t.answer.Some? then Success else Failure, clock)] else [])
      // the budget
      ensures ending.Finished? ==> clock <= old(clock) + total
      ensures ending.Exhausted? ==> old(clock) + total <= clock <= old(clock) + total + hookMax
      ensures |timed| == |t.requests| && OnTime(timed, old(clock) + total, if timeout.Some? && timeout.value < wire then timeout.value else wire)
      ensures total >= Budget(|endpoints|, PerEndpoint(wire, hookMax)) ==> !ending.Exhausted?
    {
      t, timed, text := NOTHING, [], "";
      if total <= 0.0 || wire <= 0.0 {
        ending := Rejected;
        return;
      }
      lastFailure := None;
      t, timed, ending := Chain(w, clock + total, wire, hookMax, total >= Budget(|endpoints|, PerEndpoint(wire, hookMax)));
      match ending {
        case Finished =>
          text := Report(t);
        case Exhausted =>
          text, lastFailure := "[]", Some(DEADLINE_EXCEEDED);
          var _ := breaker.RecordFailure(name, clock);
        case _ =>
      }
    }

    /** The endpoints in order, within the budget. */
    method Chain(w: World, deadline: real, wire: real, ghost hookMax: real, ghost enough: bool)
      returns (t: Trace, timed: seq<Timed>, ending: Ending)
      requires clock <= deadline && wire > 0.0
      requires hookMax >= 0.0 && forall h :: 0.0 <= w.hook(h).takes <= hookMax
      requires enough ==> clock <= deadline - Budget(|endpoints|, PerEndpoint(wire, hookMax))
      modifies `clock
      ensures !ending.Rejected?
      ensures t.requests <= Complete(w.provider, endpoints, 0, maxTokens, NOTHING).requests
      ensures if ending.Finished? then t == Complete(w.provider, endpoints, 0, maxTokens, NOTHING) else t.answer.None?
      ensures ending.Finished? ==> clock <= deadline
      ensures ending.Exhausted? ==> deadline <= clock <= deadline + hookMax
      ensures ending.HookRaised? ==> w.hook(t.requests).raises
      ensures |timed| == |t.requests| && OnTime(timed, deadline, Each(wire))
      ensures enough ==> !ending.Exhausted?
    {
      t, timed := NOTHING, [];
      ghost var each := PerEndpoint(wire, hookMax);
      ghost var reserve := Budget(|endpoints|, each);
      UsedByGrows(0, MAX_ATTEMPTS, wire, hookMax);
      var ep := 0;
      ending := Finished;
      while ep < |endpoints| && t.answer.None?
        invariant 0 <= ep <= |endpoints| && ending.Finished?
        invariant Complete(w.provider, endpoints, ep, maxTokens, t) == Complete(w.provider, endpoints, 0, maxTokens, NOTHING)
        invariant clock <= deadline && |timed| == |t.requests| && OnTime(timed, deadline, Each(wire))
        invariant reserve == Budget(|endpoints| - ep, each) && (enough ==> clock <= deadline - reserve)
      {
        reserve := reserve - each;
        BudgetIsPositive(|endpoints| - ep - 1, each);
        match endpoints[ep] {
          case Ready =>
            var more;
            ghost var u := Tries(w.provider, ep, 0, maxTokens, false, t);
            t, more, ending := TryBounded(w, ep, t, deadline, wire, hookMax, enough, deadline - reserve - each);
            OnTimeAppends(timed, more, deadline, Each(wire));
            timed := timed + more;
            if !ending.Finished? {
              CompleteExtends(w.provider, endpoints, ep + 1, maxTokens, u);
              break;
            }
          case NoClient => t := t.(failures := t.failures + [Failed("LLMClientUnavailable", None, false, ep, 0)]);
          case ClientRaises(e, s, f) => t := t.(failures := t.failures + [Failed(e, s, f, ep, 0)]);
        }
        ep := ep + 1;
      }
    }

    /** What any one request may take. */
    function Each(wire: real): real {
      if timeout.Some? then Min(wire, timeout.value) else wire
    }

    /** One request, unless the callback raises or no time is left: within what
        is left of the budget, the wire timeout and the backend's own timeout. */
    method Ask(w: World, sent: seq<Request>, request: Request, deadline: real, wire: real, ghost hookMax: real)
      returns (gate: Gate, seen: Timed)
      requires 0.0 <= w.hook(sent).takes <= hookMax && wire > 0.0
      modifies `clock
      ensures gate.Asked? ==> gate.verdict == Judge(w.provider(sent + [request])) && InTime(seen, deadline, Each(wire))
      ensures gate.Halted? <==> w.hook(sent).raises
      ensures gate.Late? <==> !w.hook(sent).raises && old(clock) + w.hook(sent).takes >= deadline
      ensures gate.Asked? ==> old(clock) <= clock <= deadline && clock <= old(clock) + hookMax + wire
      ensures gate.Late? ==> clock >= deadline
      ensures old(clock) <= clock && (!gate.Asked? ==> clock <= old(clock) + hookMax)
    {
      seen := Timed(0.0, 0.0);
      var hook := w.hook(sent);
      clock := clock + hook.takes;
      if hook.raises {
        return Halted, seen;
      }
      var remaining := deadline - clock;
      if remaining <= 0.0 {
        return Late, seen;
      }
      var limit := Min(wire, remaining);
      if timeout.Some? {
        limit := Min(limit, timeout.value);
      }
      seen := Timed(clock, limit);
      clock := clock + Elapsed(w.took(sent + [request]), limit);
      gate := Asked(Judge(w.provider(sent + [request])));
    }

    /** Sleeps, but never past the deadline. */
    method Pause(attempt: nat, deadline: real) returns (late: bool)
      modifies `clock
      ensures late <==> old(clock) >= deadline
      ensures if late then clock == old(clock) else old(clock) <= clock <= deadline && clock <= old(clock) + Delay(attempt)
      ensures
        var delay := if attempt == 0 then 0.1 else if attempt == 1 then 0.2 else 0.0;
        !late ==> clock == if old(clock) + delay <= deadline then old(clock) + delay else deadline
    {
      var remaining := deadline - clock;
      late := remaining <= 0.0;
      if !late {
        clock := clock + Min(Delay(attempt), remaining);
      }
    }

    /** The attempts on one endpoint within the budget.  When `enough` is left
        for all of them, counted from `base`, the budget does not run out. */
    method TryBounded(w: World, ep: nat, before: Trace, deadline: real, wire: real,
                      ghost hookMax: real, ghost enough: bool, ghost base: real)
      returns (t: Trace, timed: seq<Timed>, ending: Ending)
      requires before.answer.None? && wire > 0.0
      requires hookMax >= 0.0 && forall h :: 0.0 <= w.hook(h).takes <= hookMax
      requires clock <= deadline
      requires enough ==> clock <= base && base + PerEndpoint(wire, hookMax) <= deadline
      modifies `clock
      ensures !ending.Rejected?
      ensures before.requests <= t.requests <= Tries(w.provider, ep, 0, maxTokens, false, before).requests
      ensures if ending.Finished? then t == Tries(w.provider, ep, 0, maxTokens, false, before) else t.answer.None?
      ensures ending.Finished? ==> clock <= deadline
      ensures ending.Exhausted? ==> deadline <= clock <= deadline + hookMax
      ensures ending.HookRaised? ==> w.hook(t.requests).raises
      ensures |timed| == |t.requests| - |before.requests| && OnTime(timed, deadline, Each(wire))
      ensures enough ==> !ending.Exhausted? && (ending.Finished? ==> clock <= base + PerEndpoint(wire, hookMax))
    {
      var tokens, truncated, attempt := maxTokens, false, 0;
      t, timed := before, [];
      ghost var whole := Tries(w.provider, ep, 0, maxTokens, false, before);
      while attempt < MAX_ATTEMPTS
        invariant attempt <= MAX_ATTEMPTS && t.answer.None?
        invariant before.requests <= t.requests && |timed| == |t.requests| - |before.requests|
        invariant Tries(w.provider, ep, attempt, tokens, truncated, t) == whole
        invariant clock <= deadline && OnTime(timed, deadline, Each(wire))
        invariant enough ==> clock <= base + UsedBy(attempt, wire, hookMax)
      {
        UsedByGrows(attempt + 1, MAX_ATTEMPTS, wire, hookMax);
        TriesExtends(w.provider, ep, attempt, tokens, truncated, t);
        var turn, seen;
        turn, seen, ending := TakeBounded(w, ep, attempt, tokens, truncated, t, deadline, wire, hookMax);
        OnTimeAppends(timed, seen, deadline, Each(wire));
        timed := timed + seen;
        if turn.Over? {
          return turn.trace, timed, ending;
        }
        t, tokens, truncated := turn.trace, turn.tokens, turn.truncated;
        attempt := attempt + 1;
      }
      t, ending := WithTruncation(t, truncated, ep), Finished;
    }

    /** One attempt: the request, its branch, and the pause after a failure.  An
        attempt that the budget or the callback ends is over with what it has. */
    method TakeBounded(w: World, ep: nat, attempt: nat, tokens: nat, truncated: bool, before: Trace, deadline: real, wire: real,
                       ghost hookMax: real)
      returns (turn: Turn, seen: seq<Timed>, ending: Ending)
      requires before.answer.None? && wire > 0.0 && attempt < MAX_ATTEMPTS && clock <= deadline
      requires hookMax >= 0.0 && forall h :: 0.0 <= w.hook(h).takes <= hookMax
      modifies `clock
      ensures !ending.Rejected? && OnTime(seen, deadline, Each(wire))
      ensures ending.Finished? ==> turn == Take(w.provider, ep, attempt, tokens, truncated, before)
      ensures !ending.Finished? ==> turn.Over? && turn.trace.answer.None?
      ensures |seen| == |turn.trace.requests| - |before.requests|
      ensures turn.Again? ==> turn.trace.answer.None?
      ensures ending.HookRaised? ==> w.hook(turn.trace.requests).raises
      ensures before.requests <= turn.trace.requests <= Tries(w.provider, ep, attempt, tokens, truncated, before).requests
      ensures ending.Finished? ==> clock <= deadline && clock <= old(clock) + hookMax + wire + Delay(attempt)
      ensures ending.Exhausted? ==> deadline <= clock <= deadline + hookMax
      ensures old(clock) + hookMax + wire + Delay(attempt) <= deadline ==> !ending.Exhausted?
    {
      var gate, one := Ask(w, before.requests, Request(ep, attempt, tokens), deadline, wire, hookMax);
      TriesExtends(w.provider, ep, attempt, tokens, truncated, before);
      if !gate.Asked? {
        return Over(before), [], if gate.Late? then Exhausted else HookRaised;
      }
      seen, ending := [one], Finished;
      turn := Turned(gate.verdict, ep, attempt, tokens, truncated, before);
      if turn.Again? {
        TriesExtends(w.provider, ep, attempt + 1, turn.tokens, turn.truncated, turn.trace);
        if gate.verdict.Error? {
          var late := Pause(attempt, deadline);
          if late {
            turn, ending := Over(turn.trace), Exhausted;
          }
        }
      }
    }

    /** The branches on one reply. */
    method Turned(v: Verdict, ep: nat, attempt: nat, tokens: nat, truncated: bool, before: Trace) returns (turn: Turn)
      requires before.answer.None?
      ensures turn == Judged(v, ep, attempt, tokens, truncated, Trace(before.requests + [Request(ep, attempt, tokens)], before.failures, None))
      ensures turn.Again? ==> turn.trace.answer.None? && turn.trace.requests == before.requests + [Request(ep, attempt, tokens)]
      ensures turn.Over? ==> turn.trace.requests == before.requests + [Request(ep, attempt, tokens)]
    {
      var requests, failures := before.requests + [Request(ep, attempt, tokens)], before.failures;
      match v {
        case Answer(text) =>
          turn := Over(Trace(requests, failures, Some(text)));
        case Truncated(empty) =>
          if Capped(tokens, empty) {
            turn := Over(Trace(requests, failures + [TruncationFailure(ep)], None));
          } else {
            turn := Again(Trace(requests, failures, None), Doubled(tokens), true);
          }
        case Error(errorType, status, filter) =>
          failures := failures + [Failed(errorType, status, filter, ep, attempt + 1)];
          if RetryableStatus(errorType, status) && attempt + 1 < MAX_ATTEMPTS {
            turn := Again(Trace(requests, failures, None), tokens, truncated);
          } else {
            if truncated {
              failures := failures + [TruncationFailure(ep)];
            }
            turn := Over(Trace(requests, failures, None));
          }
      }
    }
  }

  lemma OnTimeAppends(a: seq<Timed>, b: seq<Timed>, deadline: real, each: real)
    requires OnTime(a, deadline, each) && OnTime(b, deadline, each)
    ensures OnTime(a + b, deadline, each)
  {
  }

  lemma {:induction false} UsedByGrows(few: nat, many: nat, wire: real, hookMax: real)
    requires few <= many && wire > 0.0 && hookMax >= 0.0
    ensures UsedBy(few, wire, hookMax) <= UsedBy(many, wire, hookMax)
    decreases many
  {
    if few < many {
      UsedByGrows(few, many - 1, wire, hookMax);
    }
  }

  lemma {:induction false} BudgetIsPositive(endpoints: nat, each: real)
    requires each >= 0.0
    ensures Budget(endpoints, each) >= 0.0
  {
    if endpoints > 0 {
      BudgetIsPositive(endpoints - 1, each);
    }
  }

  lemma {:induction false} TriesExtends(p: Provider, ep: nat, attempt: nat, tokens: nat, truncated: bool, t: Trace)
    requires attempt <= MAX_ATTEMPTS
    ensures t.requests <= Tries(p, ep, attempt, tokens, truncated, t).requests
    decreases MAX_ATTEMPTS - attempt
  {
    if attempt < MAX_ATTEMPTS {
      var turn := Take(p, ep, attempt, tokens, truncated, t);
      if turn.Again? {
        TriesExtends(p, ep, attempt + 1, turn.tokens, turn.truncated, turn.trace);
      }
    }
  }

  lemma {:induction false} CompleteExtends(p: Provider, endpoints: seq<Endpoint>, ep: nat, tokens: nat, t: Trace)
    requires ep <= |endpoints|
    ensures t.requests <= Complete(p, endpoints, ep, tokens, t).requests
    decreases |endpoints| - ep
  {
    if ep < |endpoints| && t.answer.None? {
      var u := EndpointFrom(p, ep, endpoints[ep], tokens, t);
      if endpoints[ep].Ready? {
        TriesExtends(p, ep, 0, tokens, false, t);
      }
      CompleteExtends(p, endpoints, ep + 1, tokens, u);
    }
  }

  // ---- which requests are made ----------------------------------------

  predicate Grows(tokens: nat, next: nat) {
    next == tokens || (tokens < MAX_RETRY_TOKENS && next == Doubled(tokens))
  }

  /** The next request retries the same endpoint, or starts on a later one. */
  predicate Follows(a: Request, b: Request, initial: nat) {
    if a.endpoint == b.endpoint then b.attempt == a.attempt + 1 && Grows(a.maxTokens, b.maxTokens)
    else a.endpoint < b.endpoint && b.attempt == 0 && b.maxTokens == initial
  }

  predicate Scheduled(rs: seq<Request>, initial: nat) {
    && (rs != [] ==> rs[0].attempt == 0 && rs[0].maxTokens == initial)
    && (forall i | 0 <= i < |rs| :: rs[i].attempt < MAX_ATTEMPTS)
    && (forall i | 0 < i < |rs| :: Follows(rs[i - 1], rs[i], initial))
  }

  predicate Due(rs: seq<Request>, next: Request, initial: nat) {
    if rs == [] then next.attempt == 0 && next.maxTokens == initial
    else Follows(rs[|rs| - 1], next, initial)
  }

  predicate Before(rs: seq<Request>, ep: nat) {
    rs == [] || rs[|rs| - 1].endpoint < ep
  }

  lemma {:induction false} TriesFollowTheSchedule(p: Provider, ep: nat, attempt: nat, tokens: nat, truncated: bool, t: Trace, initial: nat)
    requires attempt <= MAX_ATTEMPTS && Scheduled(t.requests, initial)
    requires attempt < MAX_ATTEMPTS ==> Due(t.requests, Request(ep, attempt, tokens), initial)
    requires attempt == MAX_ATTEMPTS ==> Before(t.requests, ep + 1)
    ensures Scheduled(Tries(p, ep, attempt, tokens, truncated, t).requests, initial)
    ensures Before(Tries(p, ep, attempt, tokens, truncated, t).requests, ep + 1)
    decreases MAX_ATTEMPTS - attempt
  {
    if attempt < MAX_ATTEMPTS {
      var turn := Take(p, ep, attempt, tokens, truncated, t);
      assert turn.trace.requests == t.requests + [Request(ep, attempt, tokens)];
      if turn.Again? {
        TriesFollowTheSchedule(p, ep, attempt + 1, turn.tokens, turn.truncated, turn.trace, initial);
      }
    }
  }

  lemma {:induction false} CompleteFollowsTheSchedule(p: Provider, endpoints: seq<Endpoint>, ep: nat, tokens: nat, t: Trace)
    requires ep <= |endpoints| && Scheduled(t.requests, tokens) && Before(t.requests, ep)
    ensures Scheduled(Complete(p, endpoints, ep, tokens, t).requests, tokens)
    ensures Before(Complete(p, endpoints, ep, tokens, t).requests, |endpoints|)
    decreases |endpoints| - ep
  {
    if ep < |endpoints| && t.answer.None? {
      if endpoints[ep].Ready? {
        TriesFollowTheSchedule(p, ep, 0, tokens, false, t, tokens);
      }
      CompleteFollowsTheSchedule(p, endpoints, ep + 1, tokens, EndpointFrom(p, ep, endpoints[ep], tokens, t));
    }
  }

  lemma {:induction false} ScheduleBounds(rs: seq<Request>, initial: nat, i: nat)
    requires Scheduled(rs, initial) && i < |rs|
    ensures i <= MAX_ATTEMPTS * rs[i].endpoint + rs[i].attempt
    ensures initial <= rs[i].maxTokens <= (if initial >= MAX_RETRY_TOKENS then initial else MAX_RETRY_TOKENS)
    ensures forall j | 0 <= j < i :: rs[j].endpoint < rs[i].endpoint || (rs[j].endpoint == rs[i].endpoint && rs[j].attempt < rs[i].attempt)
  {
    if i > 0 {
      ScheduleBounds(rs, initial, i - 1);
      assert Follows(rs[i - 1], rs[i], initial);
    }
  }

  /** At most three requests an endpoint, no two alike, endpoints in order, and
      the token limit never below the configured one nor doubled past the cap. */
  lemma RequestsAreBounded(p: Provider, endpoints: seq<Endpoint>, tokens: nat)
    ensures
      var rs := Complete(p, endpoints, 0, tokens, NOTHING).requests;
      && Scheduled(rs, tokens) && |rs| <= MAX_ATTEMPTS * |endpoints|
      && (forall i | 0 <= i < |rs| ::
            && rs[i].endpoint < |endpoints|
            && tokens <= rs[i].maxTokens <= (if tokens >= MAX_RETRY_TOKENS then tokens else MAX_RETRY_TOKENS))
      && (forall i, j | 0 <= i < j < |rs| :: (rs[i].endpoint, rs[i].attempt) != (rs[j].endpoint, rs[j].attempt))
  {
    CompleteFollowsTheSchedule(p, endpoints, 0, tokens, NOTHING);
    var rs := Complete(p, endpoints, 0, tokens, NOTHING).requests;
    forall i | 0 <= i < |rs| ensures rs[i].endpoint <= rs[|rs| - 1].endpoint {
      ScheduleBounds(rs, tokens, |rs| - 1);
    }
    forall i | 0 <= i < |rs|
      ensures tokens <= rs[i].maxTokens <= (if tokens >= MAX_RETRY_TOKENS then tokens else MAX_RETRY_TOKENS)
    {
      ScheduleBounds(rs, tokens, i);
    }
    forall i, j | 0 <= i < j < |rs| ensures (rs[i].endpoint, rs[i].attempt) != (rs[j].endpoint, rs[j].attempt) {
      ScheduleBounds(rs, tokens, j);
    }
    if rs != [] {
      ScheduleBounds(rs, tokens, |rs| - 1);
    }
  }

  // ---- what is answered -----------------------------------------------

  predicate AnswersAt(p: Provider, rs: seq<Request>, i: nat)
    requires i < |rs|
  {
    Judge(p(rs[..i + 1])).Answer?
  }

  /** Only the last request can have been answered, and then it is the answer. */
  predicate Faithful(p: Provider, t: Trace) {
    && (forall i: nat | i + 1 < |t.requests| :: !AnswersAt(p, t.requests, i))
    && (t.answer.Some? ==> t.requests != [] && Judge(p(t.requests)) == Answer(t.answer.value))
    && (t.answer.None? && t.requests != [] ==> !AnswersAt(p, t.requests, |t.requests| - 1))
  }

  lemma AskOnce(p: Provider, t: Trace, request: Request, u: Trace)
    requires Faithful(p, t) && t.answer.None? && u.requests == t.requests + [request]
    requires u.answer == (match Judge(p(u.requests)) case Answer(text) => Some(text) case _ => None)
    ensures Faithful(p, u)
  {
    var n := |t.requests|;
    assert u.requests[..n + 1] == u.requests;
    forall i: nat | i < n ensures !AnswersAt(p, u.requests, i) {
      assert u.requests[..i + 1] == t.requests[..i + 1];
      assert !AnswersAt(p, t.requests, i);
    }
  }

  lemma {:induction false} TriesAreFaithful(p: Provider, ep: nat, attempt: nat, tokens: nat, truncated: bool, t: Trace)
    requires attempt <= MAX_ATTEMPTS && Faithful(p, t) && t.answer.None?
    ensures Faithful(p, Tries(p, ep, attempt, tokens, truncated, t))
    decreases MAX_ATTEMPTS - attempt
  {
    if attempt < MAX_ATTEMPTS {
      var turn := Take(p, ep, attempt, tokens, truncated, t);
      AskOnce(p, t, Request(ep, attempt, tokens), turn.trace);
      if turn.Again? {
        TriesAreFaithful(p, ep, attempt + 1, turn.tokens, turn.truncated, turn.trace);
      }
    }
  }

  /** Whatever is returned is the reply to the last request, and no reply that
      could have been returned was passed over. */
  lemma {:induction false} CompletionIsFaithful(p: Provider, endpoints: seq<Endpoint>, ep: nat, tokens: nat, t: Trace)
    requires ep <= |endpoints| && Faithful(p, t)
    ensures Faithful(p, Complete(p, endpoints, ep, tokens, t))
    decreases |endpoints| - ep
  {
    if ep < |endpoints| && t.answer.None? {
      if endpoints[ep].Ready? {
        TriesAreFaithful(p, ep, 0, tokens, false, t);
      }
      CompletionIsFaithful(p, endpoints, ep + 1, tokens, EndpointFrom(p, ep, endpoints[ep], tokens, t));
    }
  }

  // ---- which failure is reported --------------------------------------

  predicate Blames(t: Trace, ep: nat) {
    t.answer.Some? || (t.failures != [] && t.failures[|t.failures| - 1].endpoint == ep)
  }

  lemma {:induction false} TriesBlameTheirEndpoint(p: Provider, ep: nat, attempt: nat, tokens: nat, truncated: bool, t: Trace)
    requires attempt <= MAX_ATTEMPTS
    requires attempt > 0 && !truncated ==> Blames(t, ep)
    requires attempt == 0 ==> !truncated
    ensures Blames(Tries(p, ep, attempt, tokens, truncated, t), ep)
    decreases MAX_ATTEMPTS - attempt
  {
    if attempt < MAX_ATTEMPTS {
      var turn := Take(p, ep, attempt, tokens, truncated, t);
      if turn.Again? {
        TriesBlameTheirEndpoint(p, ep, attempt + 1, turn.tokens, turn.truncated, turn.trace);
      }
    }
  }

  lemma {:induction false} CompleteBlames(p: Provider, endpoints: seq<Endpoint>, ep: nat, tokens: nat, t: Trace)
    requires 0 < ep <= |endpoints| && Blames(t, ep - 1)
    ensures Blames(Complete(p, endpoints, ep, tokens, t), |endpoints| - 1)
    decreases |endpoints| - ep
  {
    if ep < |endpoints| && t.answer.None? {
      EndpointBlames(p, ep, endpoints[ep], tokens, t);
      CompleteBlames(p, endpoints, ep + 1, tokens, EndpointFrom(p, ep, endpoints[ep], tokens, t));
    }
  }

  lemma EndpointBlames(p: Provider, ep: nat, endpoint: Endpoint, tokens: nat, t: Trace)
    ensures Blames(EndpointFrom(p, ep, endpoint, tokens, t), ep)
  {
    if endpoint.Ready? {
      TriesBlameTheirEndpoint(p, ep, 0, tokens, false, t);
    }
  }

  /** A completion that fails reports a failure of its last endpoint; the
      placeholder for an empty failure list is never used. */
  lemma FailureIsTheLastEndpoints(p: Provider, endpoints: seq<Endpoint>, tokens: nat)
    requires endpoints != []
    ensures
      var t := Complete(p, endpoints, 0, tokens, NOTHING);
      t.answer.None? ==> FailureOf(t).Some? && t.failures != [] && FailureOf(t).value.endpoint == |endpoints| - 1
  {
    EndpointBlames(p, 0, endpoints[0], tokens, NOTHING);
    CompleteBlames(p, endpoints, 1, tokens, EndpointFrom(p, 0, endpoints[0], tokens, NOTHING));
  }

  // ---- which requests are retried -------------------------------------

  predicate Retried(rs: seq<Request>, i: nat)
    requires i < |rs|
  {
    i + 1 < |rs| && rs[i + 1].endpoint == rs[i].endpoint
  }

  /** The reply and the attempts left call for a retry. */
  predicate CallsForRetry(p: Provider, rs: seq<Request>, i: nat)
    requires i < |rs|
  {
    && rs[i].attempt + 1 < MAX_ATTEMPTS
    && match Judge(p(rs[..i + 1]))
       case Answer(_) => false
       case Truncated(empty) => !Capped(rs[i].maxTokens, empty)
       case Error(errorType, status, _) => RetryableStatus(errorType, status)
  }

  predicate Decided(p: Provider, rs: seq<Request>, n: nat)
    requires n <= |rs|
  {
    forall i | 0 <= i < n :: Retried(rs, i) <==> CallsForRetry(p, rs, i)
  }

  /** The next request goes to this endpoint. */
  predicate Pending(p: Provider, rs: seq<Request>, ep: nat) {
    rs == [] || (Decided(p, rs, |rs| - 1) && (rs[|rs| - 1].endpoint == ep <==> CallsForRetry(p, rs, |rs| - 1)))
  }

  lemma MoreDecided(p: Provider, rs: seq<Request>, next: Request)
    requires Pending(p, rs, next.endpoint)
    ensures Decided(p, rs + [next], |rs|)
  {
    var more := rs + [next];
    forall i | 0 <= i < |rs| ensures Retried(more, i) <==> CallsForRetry(p, more, i) {
      assert more[..i + 1] == rs[..i + 1];
      if i + 1 < |rs| {
        assert Retried(rs, i) <==> CallsForRetry(p, rs, i);
      }
    }
  }

  lemma TurnDecides(p: Provider, ep: nat, attempt: nat, tokens: nat, truncated: bool, t: Trace)
    requires attempt < MAX_ATTEMPTS
    ensures
      var turn := Take(p, ep, attempt, tokens, truncated, t);
      var rs := t.requests + [Request(ep, attempt, tokens)];
      && turn.trace.requests == rs
      && (CallsForRetry(p, rs, |rs| - 1) <==> turn.Again? && attempt + 1 < MAX_ATTEMPTS)
  {
    var rs := t.requests + [Request(ep, attempt, tokens)];
    assert rs[..|rs|] == rs;
  }

  lemma {:induction false} TriesAreDecided(p: Provider, ep: nat, attempt: nat, tokens: nat, truncated: bool, t: Trace)
    requires attempt <= MAX_ATTEMPTS
    requires if attempt < MAX_ATTEMPTS then Pending(p, t.requests, ep) else Decided(p, t.requests, |t.requests|)
    ensures var rs := Tries(p, ep, attempt, tokens, truncated, t).requests; Decided(p, rs, |rs|)
    decreases MAX_ATTEMPTS - attempt
  {
    if attempt < MAX_ATTEMPTS {
      var turn := Take(p, ep, attempt, tokens, truncated, t);
      MoreDecided(p, t.requests, Request(ep, attempt, tokens));
      TurnDecides(p, ep, attempt, tokens, truncated, t);
      if turn.Again? {
        TriesAreDecided(p, ep, attempt + 1, turn.tokens, turn.truncated, turn.trace);
      }
    }
  }

  lemma {:induction false} CompleteIsDecided(p: Provider, endpoints: seq<Endpoint>, ep: nat, tokens: nat, t: Trace)
    requires ep <= |endpoints| && Decided(p, t.requests, |t.requests|)
    requires Scheduled(t.requests, tokens) && Before(t.requests, ep)
    ensures var rs := Complete(p, endpoints, ep, tokens, t).requests; Decided(p, rs, |rs|)
    decreases |endpoints| - ep
  {
    if ep < |endpoints| && t.answer.None? {
      if endpoints[ep].Ready? {
        TriesAreDecided(p, ep, 0, tokens, false, t);
        TriesFollowTheSchedule(p, ep, 0, tokens, false, t, tokens);
      }
      CompleteIsDecided(p, endpoints, ep + 1, tokens, EndpointFrom(p, ep, endpoints[ep], tokens, t));
    }
  }

  /** In every completion, a request is followed by another on its endpoint exactly
      when attempts are left and its reply was truncated below the caps or failed
      with a retryable status or type. */
  lemma RetriesAreCalledFor(p: Provider, endpoints: seq<Endpoint>, tokens: nat, i: nat)
    requires i < |Complete(p, endpoints, 0, tokens, NOTHING).requests|
    ensures var rs := Complete(p, endpoints, 0, tokens, NOTHING).requests; Retried(rs, i) <==> CallsForRetry(p, rs, i)
  {
    CompleteIsDecided(p, endpoints, 0, tokens, NOTHING);
  }

  // ---- where the code and its comments part ---------------------------

  /** A request refused by a content filter is sent again exactly when attempts
      are left and the status or type is retryable, although the comment on it
      says it never is. */
  lemma FilteredErrorsAreRetriedByStatus(p: Provider, endpoints: seq<Endpoint>, tokens: nat, i: nat)
    requires i < |Complete(p, endpoints, 0, tokens, NOTHING).requests|
    requires
      var e := Judge(p(Complete(p, endpoints, 0, tokens, NOTHING).requests[..i + 1]));
      e.Error? && e.contentFilter
    ensures
      var rs := Complete(p, endpoints, 0, tokens, NOTHING).requests;
      var e := Judge(p(rs[..i + 1]));
      Retried(rs, i) <==> RetryableStatus(e.errorType, e.httpStatus) && rs[i].attempt + 1 < MAX_ATTEMPTS
  {
    RetriesAreCalledFor(p, endpoints, tokens, i);
  }

  /** Three requests go out to an endpoint whose content filter answers 500. */
  lemma FilteredRequestIsSentThreeTimes(tokens: nat)
    ensures
      var p: Provider := _ => Raised("APIStatusError", Some(500), true);
      var t := Complete(p, [Ready], 0, tokens, NOTHING);
      t.requests == [Request(0, 0, tokens), Request(0, 1, tokens), Request(0, 2, tokens)]
  {
    var p: Provider := _ => Raised("APIStatusError", Some(500), true);
    var r0, r1, r2 := Request(0, 0, tokens), Request(0, 1, tokens), Request(0, 2, tokens);
    var one := Take(p, 0, 0, tokens, false, NOTHING);
    var two := Take(p, 0, 1, tokens, false, one.trace);
    assert one.trace.requests == [r0] && two.trace.requests == [r0, r1];
    var three := Take(p, 0, 2, tokens, false, two.trace);
    assert three.trace.requests == [r0, r1, r2];
    assert Tries(p, 0, 2, tokens, false, two.trace) == three.trace;
    assert Tries(p, 0, 1, tokens, false, one.trace) == three.trace;
    assert Tries(p, 0, 0, tokens, false, NOTHING) == three.trace;
    assert Complete(p, [Ready], 1, tokens, three.trace) == three.trace;
  }

  /** What a retry on the same endpoint says about the reply before it. */
  predicate Explained(p: Provider, rs: seq<Request>, i: nat)
    requires i + 1 < |rs|
  {
    rs[i].endpoint == rs[i + 1].endpoint ==>
      match Judge(p(rs[..i + 1]))
      case Answer(_) => false
      case Truncated(empty) => !Capped(rs[i].maxTokens, empty) && rs[i + 1].maxTokens == Doubled(rs[i].maxTokens)
      case Error(errorType, status, _) => RetryableStatus(errorType, status) && rs[i + 1].maxTokens == rs[i].maxTokens
  }

  predicate AllExplained(p: Provider, rs: seq<Request>) {
    forall i: nat | i + 1 < |rs| :: Explained(p, rs, i)
  }

  lemma OneMoreExplained(p: Provider, rs: seq<Request>, next: Request)
    requires AllExplained(p, rs) && (rs == [] || Explained(p, rs + [next], |rs| - 1))
    ensures AllExplained(p, rs + [next])
  {
    forall i: nat | i + 1 < |rs + [next]| ensures Explained(p, rs + [next], i) {
      if i + 1 < |rs| {
        assert Explained(p, rs, i) && (rs + [next])[..i + 1] == rs[..i + 1];
      }
    }
  }

  lemma TurnIsExplained(p: Provider, ep: nat, attempt: nat, tokens: nat, truncated: bool, t: Trace)
    requires Take(p, ep, attempt, tokens, truncated, t).Again?
    ensures
      var turn := Take(p, ep, attempt, tokens, truncated, t);
      var rs := turn.trace.requests;
      rs == t.requests + [Request(ep, attempt, tokens)]
      && Explained(p, rs + [Request(ep, attempt + 1, turn.tokens)], |rs| - 1)
  {
    var turn := Take(p, ep, attempt, tokens, truncated, t);
    var rs := turn.trace.requests;
    assert (rs + [Request(ep, attempt + 1, turn.tokens)])[..|rs|] == rs;
  }

  lemma {:induction false} TriesAreExplained(p: Provider, ep: nat, attempt: nat, tokens: nat, truncated: bool, t: Trace)
    requires attempt <= MAX_ATTEMPTS && AllExplained(p, t.requests)
    requires t.requests == [] || Explained(p, t.requests + [Request(ep, attempt, tokens)], |t.requests| - 1)
    ensures AllExplained(p, Tries(p, ep, attempt, tokens, truncated, t).requests)
    decreases MAX_ATTEMPTS - attempt
  {
    if attempt < MAX_ATTEMPTS {
      var turn := Take(p, ep, attempt, tokens, truncated, t);
      OneMoreExplained(p, t.requests, Request(ep, attempt, tokens));
      if turn.Again? {
        TurnIsExplained(p, ep, attempt, tokens, truncated, t);
        TriesAreExplained(p, ep, attempt + 1, turn.tokens, turn.truncated, turn.trace);
      }
    }
  }

  lemma {:induction false} CompleteIsExplained(p: Provider, endpoints: seq<Endpoint>, ep: nat, tokens: nat, t: Trace)
    requires ep <= |endpoints| && AllExplained(p, t.requests) && Scheduled(t.requests, tokens) && Before(t.requests, ep)
    ensures AllExplained(p, Complete(p, endpoints, ep, tokens, t).requests)
    decreases |endpoints| - ep
  {
    if ep < |endpoints| && t.answer.None? {
      if endpoints[ep].Ready? {
        TriesAreExplained(p, ep, 0, tokens, false, t);
        TriesFollowTheSchedule(p, ep, 0, tokens, false, t, tokens);
      }
      CompleteIsExplained(p, endpoints, ep + 1, tokens, EndpointFrom(p, ep, endpoints[ep], tokens, t));
    }
  }

  lemma {:induction false} LimitsRise(rs: seq<Request>, initial: nat, i: nat, j: nat)
    requires Scheduled(rs, initial) && i <= j < |rs| && rs[i].endpoint == rs[j].endpoint
    ensures rs[i].maxTokens <= rs[j].maxTokens
    decreases j
  {
    if i < j {
      ScheduleBounds(rs, initial, j);
      ScheduleBounds(rs, initial, j - 1);
      assert Follows(rs[j - 1], rs[j], initial);
      LimitsRise(rs, initial, i, j - 1);
    }
  }

  /** A reply that stopped at the limit with no text, and a retry after it. */
  predicate DoublesEmpty(p: Provider, rs: seq<Request>, i: nat)
    requires i < |rs|
  {
    i + 1 < |rs| && rs[i + 1].endpoint == rs[i].endpoint && Judge(p(rs[..i + 1])) == Truncated(true)
  }

  /** In one completion, at most one retry on each endpoint follows an empty reply. */
  predicate Once(p: Provider, endpoints: seq<Endpoint>, tokens: nat) {
    var rs := Complete(p, endpoints, 0, tokens, NOTHING).requests;
    forall i, j | 0 <= i < j < |rs| && DoublesEmpty(p, rs, i) && DoublesEmpty(p, rs, j) :: rs[i].endpoint != rs[j].endpoint
  }

  /** Whatever the provider replies in between, and on every endpoint. */
  lemma LargeLimitsDoubleOnce(p: Provider, endpoints: seq<Endpoint>, tokens: nat)
    requires tokens >= 4096
    ensures Once(p, endpoints, tokens)
  {
    var rs := Complete(p, endpoints, 0, tokens, NOTHING).requests;
    CompleteFollowsTheSchedule(p, endpoints, 0, tokens, NOTHING);
    CompleteIsExplained(p, endpoints, 0, tokens, NOTHING);
    forall i, j | 0 <= i < j < |rs| && DoublesEmpty(p, rs, i) && DoublesEmpty(p, rs, j)
      ensures rs[i].endpoint != rs[j].endpoint
    {
      assert Explained(p, rs, i) && Explained(p, rs, j);
      ScheduleBounds(rs, tokens, i);
      if rs[i].endpoint == rs[j].endpoint {
        LimitsRise(rs, tokens, i + 1, j);
      }
    }
  }

  lemma SmallLimitsDoubleTwice(p: Provider, tokens: nat)
    requires (forall rs :: p(rs) == Response(true, "")) && tokens < 4096
    ensures
      var rs := Complete(p, [Ready], 0, tokens, NOTHING).requests;
      |rs| == 3 && rs[0].endpoint == rs[1].endpoint == rs[2].endpoint && rs[2].maxTokens == 4 * tokens
  {
    var one := Take(p, 0, 0, tokens, false, NOTHING);
    var two := Take(p, 0, 1, one.tokens, true, one.trace);
    var three := Take(p, 0, 2, two.tokens, true, two.trace);
    assert Tries(p, 0, 2, two.tokens, true, two.trace).requests == three.trace.requests;
    assert Tries(p, 0, 1, one.tokens, true, one.trace).requests == three.trace.requests;
    var t := Tries(p, 0, 0, tokens, false, NOTHING);
    assert Complete(p, [Ready], 1, tokens, t) == t;
  }

  /** The comment on the limits: a reply that used its whole limit up without any
      text gets the limit doubled at most once.  Over all providers and all lists
      of endpoints, that holds exactly when the configured limit is 4096 or more. */
  lemma EmptyRepliesAreDoubledOnce(tokens: nat)
    ensures (forall p: Provider, endpoints: seq<Endpoint> :: Once(p, endpoints, tokens)) <==> tokens >= 4096
  {
    if tokens >= 4096 {
      forall p: Provider, endpoints: seq<Endpoint> ensures Once(p, endpoints, tokens) {
        LargeLimitsDoubleOnce(p, endpoints, tokens);
      }
    } else {
      var p: Provider := _ => Response(true, "");
      var rs := Complete(p, [Ready], 0, tokens, NOTHING).requests;
      SmallLimitsDoubleTwice(p, tokens);
      assert DoublesEmpty(p, rs, 0) && DoublesEmpty(p, rs, 1);
      assert !Once(p, [Ready], tokens);
    }
  }
}
