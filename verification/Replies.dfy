/** What the completion loops make of the replies, said of the replies alone:
    which of them is returned, which is tried again and with what limit, and
    which failure is reported. */
module Replies {
  import opened Text
  import opened Completion

  // ---- whole texts ----------------------------------------------------

  predicate RightTrimmed(text: string, s: string) {
    s <= text && (s == "" || !IsSpace(s[|s| - 1])) && forall k | |s| <= k < |text| :: IsSpace(text[k])
  }

  predicate Marked(text: string) {
    '{' in text || '[' in text || Contains(text, "```")
  }

  predicate Closed(s: string) {
    s != "" && (s[|s| - 1] == '}' || s[|s| - 1] == ']' || (|s| >= 3 && s[|s| - 3..] == "```"))
  }

  /** Some text, and if it holds a bracket or a fence it ends in one. */
  ghost predicate Whole(text: string) {
    text != "" && (!Marked(text) || exists s :: RightTrimmed(text, s) && Closed(s))
  }

  lemma TrimmedOnce(text: string, s: string)
    requires RightTrimmed(text, s)
    ensures s == text[..Trail(text, 0, |text|)]
  {
    var n := Trail(text, 0, |text|);
    assert s == text[..|s|];
  }

  lemma CharOccurs(s: string, c: char)
    ensures Contains(s, [c]) <==> c in s
  {
    if c in s {
      var i :| 0 <= i < |s| && s[i] == c;
      assert OccursAt(s, [c], i);
    }
    if Contains(s, [c]) {
      var i :| 0 <= i <= |s| && OccursAt(s, [c], i);
      assert s[i..i + 1][0] == s[i];
    }
  }

  lemma InkIsKept(text: string, s: string, mark: string)
    requires RightTrimmed(text, s) && mark != "" && !IsSpace(mark[|mark| - 1])
    ensures Contains(s, mark) <==> Contains(text, mark)
  {
    if Contains(text, mark) {
      var i :| 0 <= i <= |text| && OccursAt(text, mark, i);
      assert text[i + |mark| - 1] == mark[|mark| - 1];
      assert s[i..i + |mark|] == text[i..i + |mark|];
      assert OccursAt(s, mark, i);
    } else if Contains(s, mark) {
      var i :| 0 <= i <= |s| && OccursAt(s, mark, i);
      assert s[i..i + |mark|] == text[i..i + |mark|];
      assert OccursAt(text, mark, i);
    }
  }

  lemma MarksAreKept(text: string, s: string)
    requires RightTrimmed(text, s)
    ensures Contains(s, "{") || Contains(s, "[") || Contains(s, "```") <==> Marked(text)
  {
    InkIsKept(text, s, "{");
    InkIsKept(text, s, "[");
    InkIsKept(text, s, "```");
    CharOccurs(text, '{');
    CharOccurs(text, '[');
  }

  lemma ClosedEnds(s: string)
    ensures Closed(s) <==> EndsWith(s, "}") || EndsWith(s, "]") || EndsWith(s, "```")
  {
    if s != "" {
      assert s[|s| - 1..] == [s[|s| - 1]];
    }
  }

  lemma WholeIsNotTruncated(text: string)
    requires text != ""
    ensures LooksTruncated(text) <==> !Whole(text)
  {
    var s := text[..Trail(text, 0, |text|)];
    assert RightTrimmed(text, s);
    MarksAreKept(text, s);
    ClosedEnds(s);
    if t :| RightTrimmed(text, t) && Closed(t) {
      TrimmedOnce(text, t);
    }
  }

  // ---- which reply is returned ----------------------------------------

  function ReplyTo(p: Provider, rs: seq<Request>, i: nat): Reply
    requires i < |rs|
  {
    p(rs[..i + 1])
  }

  lemma LastReply(p: Provider, rs: seq<Request>)
    requires rs != []
    ensures ReplyTo(p, rs, |rs| - 1) == p(rs)
  {
    assert rs[..|rs|] == rs;
  }

  /** A whole text that did not stop at the token limit. */
  ghost predicate Usable(r: Reply) {
    r.Response? && !r.lengthStop && Whole(r.text)
  }

  lemma AnswersAreUsable(r: Reply)
    ensures Judge(r).Answer? <==> Usable(r)
    ensures Judge(r).Answer? ==> Judge(r).text == r.text
  {
    if r.Response? && r.text != "" {
      WholeIsNotTruncated(r.text);
    }
  }

  /** A completion has an answer exactly when the reply to its last request is
      usable, and then that reply's text; no earlier reply was usable. */
  lemma CompletionReturnsTheUsableReply(p: Provider, endpoints: seq<Endpoint>, tokens: nat)
    ensures
      var t := Complete(p, endpoints, 0, tokens, NOTHING);
      var n := |t.requests|;
      && (t.answer.Some? <==> n > 0 && Usable(ReplyTo(p, t.requests, n - 1)))
      && (t.answer.Some? ==> t.answer == Some(ReplyTo(p, t.requests, n - 1).text))
      && (forall i | 0 <= i < n - 1 :: !Usable(ReplyTo(p, t.requests, i)))
  {
    var t := Complete(p, endpoints, 0, tokens, NOTHING);
    CompletionIsFaithful(p, endpoints, 0, tokens, NOTHING);
    if t.requests != [] {
      LastReply(p, t.requests);
      AnswersAreUsable(p(t.requests));
      assert AnswersAt(p, t.requests, |t.requests| - 1) <==> Usable(p(t.requests));
    }
    forall i | 0 <= i < |t.requests| - 1 ensures !Usable(ReplyTo(p, t.requests, i)) {
      AnswersAreUsable(ReplyTo(p, t.requests, i));
      assert !AnswersAt(p, t.requests, i);
    }
  }

  // ---- which reply is tried again -------------------------------------

  predicate Transient(errorType: string, status: Option<int>) {
    if status.Some? then status.value == 408 || status.value == 409 || status.value == 429 || status.value >= 500
    else errorType in {"APIConnectionError", "APITimeoutError", "APIStatusError", "TimeoutError", "ConnectError", "ReadTimeout"}
  }

  /** A text cut off, by the limit or by its looks. */
  ghost predicate CutOff(r: Reply) {
    r.Response? && (r.lengthStop || (r.text != "" && !Whole(r.text)))
  }

  /** A transient error, or a text cut off below the limits. */
  ghost predicate WorthRetrying(r: Reply, maxTokens: nat) {
    || (r.Raised? && Transient(r.errorType, r.httpStatus))
    || (CutOff(r) && maxTokens < 16384 && (r.text == "" ==> maxTokens < 8192))
  }

  function NextLimit(r: Reply, maxTokens: nat): nat {
    if r.Raised? then maxTokens else if 2 * maxTokens < 16384 then 2 * maxTokens else 16384
  }

  lemma CallsAreWorthIt(p: Provider, rs: seq<Request>, i: nat)
    requires i < |rs|
    ensures CallsForRetry(p, rs, i) <==> rs[i].attempt < 2 && WorthRetrying(ReplyTo(p, rs, i), rs[i].maxTokens)
  {
    var r := ReplyTo(p, rs, i);
    if r.Response? && r.text != "" {
      WholeIsNotTruncated(r.text);
    }
  }

  /** In every completion a request is followed by another on its endpoint exactly
      when it was not the third and its reply is worth retrying; the limit is kept
      after an error and doubled, up to 16384, after a text cut off. */
  lemma RetriesFollowTheReplies(p: Provider, endpoints: seq<Endpoint>, tokens: nat, i: nat)
    requires i < |Complete(p, endpoints, 0, tokens, NOTHING).requests|
    ensures
      var rs := Complete(p, endpoints, 0, tokens, NOTHING).requests;
      var r := ReplyTo(p, rs, i);
      && (Retried(rs, i) <==> rs[i].attempt < 2 && WorthRetrying(r, rs[i].maxTokens))
      && (Retried(rs, i) ==> rs[i + 1].maxTokens == NextLimit(r, rs[i].maxTokens))
  {
    var rs := Complete(p, endpoints, 0, tokens, NOTHING).requests;
    RetriesAreCalledFor(p, endpoints, tokens, i);
    CallsAreWorthIt(p, rs, i);
    CompleteIsExplained(p, endpoints, 0, tokens, NOTHING);
    CutOffIsTruncated(ReplyTo(p, rs, i));
    assert i + 1 < |rs| ==> Explained(p, rs, i);
  }

  // ---- which failure is reported --------------------------------------

  /** The failure under which the reply to the last request is recorded when it is
      no answer. */
  function FailureFor(r: Reply, last: Request): Failed {
    match r
    case Raised(errorType, status, filter) => Failed(errorType, status, filter, last.endpoint, last.attempt + 1)
    case Response(_, _) => Failed("ValueError", None, false, last.endpoint, last.attempt + 1)
  }

  lemma CutOffIsTruncated(r: Reply)
    ensures Judge(r).Truncated? <==> CutOff(r)
    ensures Judge(r).Error? && r.Raised? ==> Judge(r) == Error(r.errorType, r.httpStatus, r.contentFilter)
    ensures Judge(r).Error? && r.Response? ==> Judge(r) == Error("ValueError", None, false) && !RetryableStatus("ValueError", None)
  {
    if r.Response? && r.text != "" {
      WholeIsNotTruncated(r.text);
    }
  }

  /** Some reply from the `from`-th request on was cut off. */
  ghost predicate CutOffFrom(p: Provider, rs: seq<Request>, from: nat) {
    exists j | from <= j < |rs| :: CutOff(ReplyTo(p, rs, j))
  }

  ghost function Named(p: Provider, rs: seq<Request>, truncated: bool): Failed
    requires rs != []
  {
    var last := rs[|rs| - 1];
    if truncated then Failed("LLMResponseTruncated", None, false, last.endpoint, 0) else FailureFor(p(rs), last)
  }

  /** Without an answer, the last failure is named after the replies. */
  ghost predicate Names(p: Provider, u: Trace, truncated: bool) {
    u.answer.None? ==> u.requests != [] && u.failures != [] && u.failures[|u.failures| - 1] == Named(p, u.requests, truncated)
  }

  lemma CutOffMore(p: Provider, rs: seq<Request>, next: Request, from: nat)
    requires from <= |rs|
    ensures CutOffFrom(p, rs + [next], from) <==> CutOffFrom(p, rs, from) || CutOff(p(rs + [next]))
  {
    var all := rs + [next];
    LastReply(p, all);
    forall j | 0 <= j < |rs| ensures ReplyTo(p, all, j) == ReplyTo(p, rs, j) {
      assert all[..j + 1] == rs[..j + 1];
    }
    if CutOffFrom(p, rs, from) {
      var j :| from <= j < |rs| && CutOff(ReplyTo(p, rs, j));
      assert CutOff(ReplyTo(p, all, j));
    }
    if CutOff(p(all)) {
      assert CutOff(ReplyTo(p, all, |rs|));
    }
    if CutOffFrom(p, all, from) {
      var j :| from <= j < |all| && CutOff(ReplyTo(p, all, j));
      assert j < |rs| ==> CutOff(ReplyTo(p, rs, j));
    }
  }

  lemma TurnNames(p: Provider, ep: nat, attempt: nat, tokens: nat, truncated: bool, t: Trace)
    requires t.answer.None? && attempt < MAX_ATTEMPTS
    ensures
      var turn := Take(p, ep, attempt, tokens, truncated, t);
      var cut := truncated || CutOff(p(turn.trace.requests));
      && turn.trace.requests == t.requests + [Request(ep, attempt, tokens)]
      && (turn.Over? ==> Names(p, turn.trace, cut))
      && (turn.Again? ==> turn.trace.answer.None? && (turn.truncated <==> cut) && (!cut ==> Names(p, turn.trace, false)))
  {
    CutOffIsTruncated(p(t.requests + [Request(ep, attempt, tokens)]));
  }

  lemma {:induction false} TriesName(p: Provider, ep: nat, attempt: nat, tokens: nat, truncated: bool, t: Trace, from: nat)
    requires attempt <= MAX_ATTEMPTS && from <= |t.requests| && t.answer.None?
    requires truncated <==> CutOffFrom(p, t.requests, from)
    requires attempt > 0 ==> t.requests != [] && t.requests[|t.requests| - 1].endpoint == ep && (!truncated ==> Names(p, t, false))
    ensures var u := Tries(p, ep, attempt, tokens, truncated, t); Names(p, u, CutOffFrom(p, u.requests, from))
    decreases MAX_ATTEMPTS - attempt
  {
    if attempt < MAX_ATTEMPTS {
      var turn := Take(p, ep, attempt, tokens, truncated, t);
      TurnNames(p, ep, attempt, tokens, truncated, t);
      CutOffMore(p, t.requests, Request(ep, attempt, tokens), from);
      if turn.Again? {
        TriesName(p, ep, attempt + 1, turn.tokens, turn.truncated, turn.trace, from);
      }
    }
  }

  /** Some reply of one endpoint was cut off. */
  ghost predicate CutOffOn(p: Provider, rs: seq<Request>, ep: nat) {
    exists j | 0 <= j < |rs| :: rs[j].endpoint == ep && CutOff(ReplyTo(p, rs, j))
  }

  predicate AllBelow(rs: seq<Request>, n: nat, ep: nat) {
    n <= |rs| && (forall j | 0 <= j < n :: rs[j].endpoint < ep) && (forall j | n <= j < |rs| :: rs[j].endpoint == ep)
  }

  lemma {:induction false} TriesStayOn(p: Provider, ep: nat, attempt: nat, tokens: nat, truncated: bool, t: Trace, n: nat)
    requires attempt <= MAX_ATTEMPTS && AllBelow(t.requests, n, ep)
    ensures AllBelow(Tries(p, ep, attempt, tokens, truncated, t).requests, n, ep)
    decreases MAX_ATTEMPTS - attempt
  {
    if attempt < MAX_ATTEMPTS {
      var turn := Take(p, ep, attempt, tokens, truncated, t);
      if turn.Again? {
        TriesStayOn(p, ep, attempt + 1, turn.tokens, turn.truncated, turn.trace, n);
      }
    }
  }

  lemma CutOffOnIsFrom(p: Provider, rs: seq<Request>, n: nat, ep: nat)
    requires AllBelow(rs, n, ep)
    ensures CutOffOn(p, rs, ep) <==> CutOffFrom(p, rs, n)
  {
    if CutOffOn(p, rs, ep) {
      var j :| 0 <= j < |rs| && rs[j].endpoint == ep && CutOff(ReplyTo(p, rs, j));
      assert n <= j;
    }
    if CutOffFrom(p, rs, n) {
      var j :| n <= j < |rs| && CutOff(ReplyTo(p, rs, j));
      assert rs[j].endpoint == ep;
    }
  }

  lemma {:induction false} LastEndpointNames(p: Provider, endpoints: seq<Endpoint>, ep: nat, tokens: nat, t: Trace)
    requires ep < |endpoints| && t.answer.None? && endpoints[|endpoints| - 1].Ready?
    requires forall j | 0 <= j < |t.requests| :: t.requests[j].endpoint < ep
    ensures
      var u := Complete(p, endpoints, ep, tokens, t);
      Names(p, u, CutOffOn(p, u.requests, |endpoints| - 1))
    decreases |endpoints| - ep
  {
    var u := EndpointFrom(p, ep, endpoints[ep], tokens, t);
    var n := |t.requests|;
    if endpoints[ep].Ready? {
      TriesStayOn(p, ep, 0, tokens, false, t, n);
    }
    if ep == |endpoints| - 1 {
      TriesName(p, ep, 0, tokens, false, t, n);
      CutOffOnIsFrom(p, u.requests, n, ep);
      assert Complete(p, endpoints, ep + 1, tokens, u) == u;
    } else if u.answer.None? {
      LastEndpointNames(p, endpoints, ep + 1, tokens, u);
    } else {
      assert Complete(p, endpoints, ep + 1, tokens, u) == u;
    }
  }

  lemma {:induction false} UnreadyEndpointFails(p: Provider, endpoints: seq<Endpoint>, ep: nat, tokens: nat, t: Trace)
    requires ep < |endpoints| && t.answer.None?
    ensures
      var n := |endpoints| - 1;
      var u := Complete(p, endpoints, ep, tokens, t);
      u.answer.None? && !endpoints[n].Ready? ==>
        && u.failures != []
        && u.failures[|u.failures| - 1] ==
             if endpoints[n].NoClient? then Failed("LLMClientUnavailable", None, false, n, 0)
             else Failed(endpoints[n].errorType, endpoints[n].httpStatus, endpoints[n].contentFilter, n, 0)
    decreases |endpoints| - ep
  {
    var u := EndpointFrom(p, ep, endpoints[ep], tokens, t);
    if ep == |endpoints| - 1 || u.answer.Some? {
      assert Complete(p, endpoints, ep + 1, tokens, u) == u;
    } else {
      UnreadyEndpointFails(p, endpoints, ep + 1, tokens, u);
    }
  }

  /** What a failed completion reports.  When its last endpoint has a client: a
      truncation if some reply of that endpoint was cut off, and else the error of
      its last reply.  Otherwise: why there was no client. */
  lemma FailureNamesTheReplies(p: Provider, endpoints: seq<Endpoint>, tokens: nat)
    ensures
      var t := Complete(p, endpoints, 0, tokens, NOTHING);
      var n := |endpoints| - 1;
      t.answer.None? ==>
        if endpoints == [] then FailureOf(t) == Some(Failed("LLMClientUnavailable", None, false, 0, 0))
        else
          match endpoints[n]
          case Ready => t.requests != [] && FailureOf(t) == Some(Named(p, t.requests, CutOffOn(p, t.requests, n)))
          case NoClient => FailureOf(t) == Some(Failed("LLMClientUnavailable", None, false, n, 0))
          case ClientRaises(errorType, status, filter) => FailureOf(t) == Some(Failed(errorType, status, filter, n, 0))
  {
    if endpoints == [] {
    } else if endpoints[|endpoints| - 1].Ready? {
      LastEndpointNames(p, endpoints, 0, tokens, NOTHING);
    } else {
      UnreadyEndpointFails(p, endpoints, 0, tokens, NOTHING);
    }
  }

  // ---- which endpoints are asked --------------------------------------

  predicate EndsOn(rs: seq<Request>, ep: nat) {
    rs != [] && rs[|rs| - 1].endpoint == ep
  }

  lemma {:induction false} TriesStart(p: Provider, ep: nat, attempt: nat, tokens: nat, truncated: bool, t: Trace)
    requires attempt < MAX_ATTEMPTS
    ensures t.requests + [Request(ep, attempt, tokens)] <= Tries(p, ep, attempt, tokens, truncated, t).requests
    ensures EndsOn(Tries(p, ep, attempt, tokens, truncated, t).requests, ep)
    decreases MAX_ATTEMPTS - attempt
  {
    var turn := Take(p, ep, attempt, tokens, truncated, t);
    if turn.Again? && attempt + 1 < MAX_ATTEMPTS {
      TriesStart(p, ep, attempt + 1, turn.tokens, turn.truncated, turn.trace);
    }
  }

  lemma {:induction false} LaterRequestsStay(p: Provider, endpoints: seq<Endpoint>, ep: nat, tokens: nat, t: Trace)
    requires ep <= |endpoints|
    ensures t.requests <= Complete(p, endpoints, ep, tokens, t).requests
    decreases |endpoints| - ep
  {
    if ep < |endpoints| && t.answer.None? {
      var u := EndpointFrom(p, ep, endpoints[ep], tokens, t);
      if endpoints[ep].Ready? {
        TriesStart(p, ep, 0, tokens, false, t);
      }
      LaterRequestsStay(p, endpoints, ep + 1, tokens, u);
    }
  }

  /** The endpoint is asked first with the configured limit, unless an earlier one
      had the answer. */
  predicate AskedInTurn(u: Trace, e: nat, tokens: nat) {
    Request(e, 0, tokens) in u.requests || (u.answer.Some? && u.requests != [] && u.requests[|u.requests| - 1].endpoint < e)
  }

  lemma AnsweredEarlier(p: Provider, endpoints: seq<Endpoint>, ep: nat, tokens: nat, t: Trace, e: nat)
    requires ep < e < |endpoints| && t.answer.None? && EndpointFrom(p, ep, endpoints[ep], tokens, t).answer.Some?
    ensures AskedInTurn(EndpointFrom(p, ep, endpoints[ep], tokens, t), e, tokens)
  {
    if endpoints[ep].Ready? {
      TriesStart(p, ep, 0, tokens, false, t);
    }
  }

  lemma {:induction false} AskedFrom(p: Provider, endpoints: seq<Endpoint>, ep: nat, tokens: nat, t: Trace, e: nat)
    requires ep <= e < |endpoints| && endpoints[e].Ready? && t.answer.None?
    ensures AskedInTurn(Complete(p, endpoints, ep, tokens, t), e, tokens)
    decreases |endpoints| - ep
  {
    var u := EndpointFrom(p, ep, endpoints[ep], tokens, t);
    if ep == e {
      TriesStart(p, e, 0, tokens, false, t);
      LaterRequestsStay(p, endpoints, ep + 1, tokens, u);
      assert u.requests[|t.requests|] == Request(e, 0, tokens);
      assert Complete(p, endpoints, ep + 1, tokens, u).requests[|t.requests|] == Request(e, 0, tokens);
    } else if u.answer.Some? {
      AnsweredEarlier(p, endpoints, ep, tokens, t, e);
      assert Complete(p, endpoints, ep + 1, tokens, u) == u;
    } else {
      AskedFrom(p, endpoints, ep + 1, tokens, u, e);
    }
  }

  predicate AllReady(rs: seq<Request>, endpoints: seq<Endpoint>) {
    forall i | 0 <= i < |rs| :: rs[i].endpoint < |endpoints| && endpoints[rs[i].endpoint].Ready?
  }

  lemma {:induction false} OnlyReadyFrom(p: Provider, endpoints: seq<Endpoint>, ep: nat, tokens: nat, t: Trace)
    requires ep <= |endpoints| && AllReady(t.requests, endpoints) && forall i | 0 <= i < |t.requests| :: t.requests[i].endpoint < ep
    ensures AllReady(Complete(p, endpoints, ep, tokens, t).requests, endpoints)
    decreases |endpoints| - ep
  {
    if ep < |endpoints| && t.answer.None? {
      var u := EndpointFrom(p, ep, endpoints[ep], tokens, t);
      var n := |t.requests|;
      if endpoints[ep].Ready? {
        TriesStart(p, ep, 0, tokens, false, t);
        TriesStayOn(p, ep, 0, tokens, false, t, n);
        assert forall i | 0 <= i < n :: u.requests[i] == t.requests[i];
      }
      OnlyReadyFrom(p, endpoints, ep + 1, tokens, u);
    }
  }

  /** Every endpoint with a client is asked, with the configured limit, until one
      has the answer; no other is ever asked. */
  lemma EndpointsAreAskedInTurn(p: Provider, endpoints: seq<Endpoint>, tokens: nat, e: nat)
    requires e < |endpoints|
    ensures
      var t := Complete(p, endpoints, 0, tokens, NOTHING);
      && (endpoints[e].Ready? ==> AskedInTurn(t, e, tokens))
      && AllReady(t.requests, endpoints)
  {
    if endpoints[e].Ready? {
      AskedFrom(p, endpoints, 0, tokens, NOTHING, e);
    }
    OnlyReadyFrom(p, endpoints, 0, tokens, NOTHING);
  }
}
