/** The in-process circuit breaker over LLM backends. */
module Breaker {
  import opened Text

  /** `cooldownUntil` is 0 until the failure threshold is reached. */
  datatype Health = Health(failures: nat, cooldownUntil: real)

  datatype Settings = Settings(threshold: nat, cooldown: real)

  datatype Kind = Success | Failure | Probe

  /** One call on the breaker, with the clock reading it used. */
  datatype Event = Event(backend: string, kind: Kind, at: real)

  predicate Blocks(h: Option<Health>, now: real) {
    h.Some? && h.value.cooldownUntil > 0.0 && now < h.value.cooldownUntil
  }

  /** One backend: a success forgets it, a failure counts and may start a
      cooldown, a probe forgets it once the cooldown is over. */
  function Next(h: Option<Health>, kind: Kind, now: real, cfg: Settings): Option<Health> {
    match kind
    case Success => None
    case Failure =>
      var was := if h.Some? then h.value else Health(0, 0.0);
      var n := was.failures + 1;
      Some(Health(n, if n >= cfg.threshold then now + cfg.cooldown else was.cooldownUntil))
    case Probe =>
      if h.Some? && h.value.cooldownUntil > 0.0 && now >= h.value.cooldownUntil then None else h
  }

  function Lookup(states: map<string, Health>, backend: string): Option<Health> {
    if backend in states then Some(states[backend]) else None
  }

  function Store(states: map<string, Health>, backend: string, h: Option<Health>): map<string, Health> {
    if h.Some? then states[backend := h.value] else states - {backend}
  }

  function Apply(states: map<string, Health>, e: Event, cfg: Settings): map<string, Health> {
    Store(states, e.backend, Next(Lookup(states, e.backend), e.kind, e.at, cfg))
  }

  function Replay(history: seq<Event>, cfg: Settings): map<string, Health> {
    if history == [] then map[]
    else Apply(Replay(history[..|history| - 1], cfg), history[|history| - 1], cfg)
  }

  class BackendCircuitBreaker {
    const cfg: Settings
    var states: map<string, Health>
    ghost var history: seq<Event>

    constructor (threshold: int, cooldown: real)
      ensures Valid() && history == []
      ensures cfg.threshold == (if threshold >= 1 then threshold else 1) && cfg.cooldown == (if cooldown >= 1.0 then cooldown else 1.0)
    {
      cfg := Settings(if threshold < 1 then 1 else threshold, if cooldown < 1.0 then 1.0 else cooldown);
      states, history := map[], [];
    }

    /** The table is the replay of the calls so far. */
    ghost predicate Valid()
      reads this
    {
      states == Replay(history, cfg)
    }

    method CanTry(backend: string, now: real) returns (ok: bool)
      requires Valid()
      modifies this
      ensures Valid() && history == old(history) + [Event(backend, Probe, now)]
      ensures ok <==> !Blocks(Lookup(old(states), backend), now)
    {
      assert (history + [Event(backend, Probe, now)])[..|history|] == history;
      history := history + [Event(backend, Probe, now)];
      ok := true;
      if backend in states {
        var state := states[backend];
        assert states[backend := state] == states;
        if state.cooldownUntil > 0.0 {
          if now >= state.cooldownUntil {
            states := states - {backend};
          } else {
            ok := false;
          }
        }
      } else {
        assert states - {backend} == states;
      }
    }

    method RecordSuccess(backend: string, now: real)
      requires Valid()
      modifies this
      ensures Valid() && history == old(history) + [Event(backend, Success, now)]
    {
      assert (history + [Event(backend, Success, now)])[..|history|] == history;
      history := history + [Event(backend, Success, now)];
      states := states - {backend};
    }

    method RecordFailure(backend: string, now: real) returns (state: Health)
      requires Valid()
      modifies this
      ensures Valid() && history == old(history) + [Event(backend, Failure, now)]
      ensures Lookup(states, backend) == Some(state)
    {
      assert (history + [Event(backend, Failure, now)])[..|history|] == history;
      history := history + [Event(backend, Failure, now)];
      state := if backend in states then states[backend] else Health(0, 0.0);
      state := state.(failures := state.failures + 1);
      if state.failures >= cfg.threshold {
        state := state.(cooldownUntil := now + cfg.cooldown);
      }
      states := states[backend := state];
    }
  }

  // ---- what the breaker's answers mean --------------------------------

  function Own(history: seq<Event>, backend: string): seq<Event> {
    if history == [] then []
    else
      var front := Own(history[..|history| - 1], backend);
      if history[|history| - 1].backend == backend then front + [history[|history| - 1]] else front
  }

  function ReplayOne(own: seq<Event>, cfg: Settings): Option<Health> {
    if own == [] then None
    else Next(ReplayOne(own[..|own| - 1], cfg), own[|own| - 1].kind, own[|own| - 1].at, cfg)
  }

  lemma OneCall(states: map<string, Health>, e: Event, backend: string, cfg: Settings)
    ensures Lookup(Apply(states, e, cfg), backend) ==
              if e.backend == backend then Next(Lookup(states, backend), e.kind, e.at, cfg) else Lookup(states, backend)
  {
  }

  lemma OwnMore(own: seq<Event>, e: Event, cfg: Settings)
    ensures ReplayOne(own + [e], cfg) == Next(ReplayOne(own, cfg), e.kind, e.at, cfg)
  {
    assert (own + [e])[..|own|] == own;
  }

  /** A backend's state is a fold of its own history: no call about another
      backend ever touches it. */
  lemma {:induction false} BackendsAreIndependent(history: seq<Event>, backend: string, cfg: Settings)
    ensures Lookup(Replay(history, cfg), backend) == ReplayOne(Own(history, backend), cfg)
  {
    if history != [] {
      var front, e := history[..|history| - 1], history[|history| - 1];
      BackendsAreIndependent(front, backend, cfg);
      OneCall(Replay(front, cfg), e, backend, cfg);
      OwnMore(Own(front, backend), e, cfg);
    }
  }

  /** A run of events without a success, holding `k` failures and ending in one
      failure at index `last` followed only by probes. */
  predicate FailureRun(own: seq<Event>, first: nat, last: nat) {
    && first <= last < |own|
    && own[last].kind.Failure?
    && (forall i | first <= i < |own| :: !own[i].kind.Success?)
    && (forall i | last < i < |own| :: own[i].kind.Probe?)
  }

  function FailuresIn(own: seq<Event>, first: nat): nat
    requires first <= |own|
    decreases |own| - first
  {
    if first == |own| then 0
    else (if own[first].kind.Failure? then 1 else 0) + FailuresIn(own, first + 1)
  }

  lemma {:induction false} FailuresInSplit(own: seq<Event>, e: Event, first: nat)
    requires first <= |own|
    ensures FailuresIn(own + [e], first) == FailuresIn(own, first) + if e.kind.Failure? then 1 else 0
    decreases |own| - first
  {
    if first < |own| {
      FailuresInSplit(own, e, first + 1);
    } else {
      assert FailuresIn(own + [e], |own| + 1) == 0;
    }
  }

  /** What a recorded state says: its count is the failures since some point with
      no success after it; a running cooldown belongs to the last failure. */
  lemma {:induction false} StateSummarisesFailures(own: seq<Event>, cfg: Settings) returns (first: nat, last: nat)
    requires ReplayOne(own, cfg).Some?
    requires cfg.threshold >= 1
    ensures FailureRun(own, first, last)
    ensures
      var h := ReplayOne(own, cfg).value;
      && h.failures == FailuresIn(own, first) >= 1
      && h.cooldownUntil == if h.failures >= cfg.threshold then own[last].at + cfg.cooldown else 0.0
  {
    var n := |own| - 1;
    var front, e := own[..n], own[n];
    assert own == front + [e];
    var was := ReplayOne(front, cfg);
    if was.Some? {
      first, last := StateSummarisesFailures(front, cfg);
      FailuresInSplit(front, e, first);
      if e.kind.Failure? {
        last := n;
      }
    } else {
      first, last := n, n;
      assert FailuresIn(own, n + 1) == 0;
    }
  }

  /** A refusal means: the backend failed at least the threshold number of times
      with no success in between, and its last failure is less than the cooldown
      away. */
  lemma RefusalLiesInCooldown(own: seq<Event>, cfg: Settings, now: real) returns (first: nat, last: nat)
    requires cfg.threshold >= 1 && Blocks(ReplayOne(own, cfg), now)
    ensures FailureRun(own, first, last)
    ensures FailuresIn(own, first) >= cfg.threshold && now < own[last].at + cfg.cooldown
  {
    first, last := StateSummarisesFailures(own, cfg);
  }

  /** Conversely, after the threshold number of failures in a row every probe
      within the cooldown is refused. */
  lemma {:induction false} FailuresInARowBlock(own: seq<Event>, k: nat, cfg: Settings, now: real)
    requires 1 <= k <= |own| && k >= cfg.threshold
    requires forall i | |own| - k <= i < |own| :: own[i].kind.Failure?
    requires own[|own| - 1].at >= 0.0 && cfg.cooldown >= 1.0
    requires now < own[|own| - 1].at + cfg.cooldown
    ensures Blocks(ReplayOne(own, cfg), now)
  {
    RowOfFailuresCounts(own, k, cfg);
  }

  lemma {:induction false} RowOfFailuresCounts(own: seq<Event>, k: nat, cfg: Settings)
    requires 1 <= k <= |own|
    requires forall i | |own| - k <= i < |own| :: own[i].kind.Failure?
    ensures ReplayOne(own, cfg).Some? && ReplayOne(own, cfg).value.failures >= k
  {
    if k > 1 {
      RowOfFailuresCounts(own[..|own| - 1], k - 1, cfg);
    }
  }

  /** `k` failures in a row end the calls, enough to start a cooldown. */
  predicate EndsInARow(own: seq<Event>, k: nat, cfg: Settings) {
    && 1 <= k <= |own| && k >= cfg.threshold && own[|own| - 1].at >= 0.0
    && forall i | |own| - k <= i < |own| :: own[i].kind.Failure?
  }

  /** Nothing yet, or a success, or a probe that comes when the cooldown of enough
      failures in a row is over. */
  predicate Forgives(own: seq<Event>, k: nat, cfg: Settings) {
    || own == []
    || own[|own| - 1].kind.Success?
    || (own[|own| - 1].kind.Probe? && EndsInARow(own[..|own| - 1], k, cfg)
        && own[|own| - 1].at >= own[|own| - 2].at + cfg.cooldown)
  }

  lemma ForgivenIsForgotten(own: seq<Event>, k: nat, cfg: Settings)
    requires Forgives(own, k, cfg) && cfg.cooldown >= 1.0
    ensures ReplayOne(own, cfg).None?
  {
    if own != [] && own[|own| - 1].kind.Probe? {
      var front := own[..|own| - 1];
      RowOfFailuresCounts(front, k, cfg);
      assert ReplayOne(front, cfg).value.cooldownUntil == front[|front| - 1].at + cfg.cooldown;
    }
  }

  /** Below the threshold, probes neither count nor forgive. */
  lemma {:induction false} FailuresAreCounted(before: seq<Event>, run: seq<Event>, cfg: Settings)
    requires ReplayOne(before, cfg).None? && (forall i | 0 <= i < |run| :: !run[i].kind.Success?)
    requires FailuresIn(run, 0) < cfg.threshold
    ensures ReplayOne(before + run, cfg) == if FailuresIn(run, 0) == 0 then None else Some(Health(FailuresIn(run, 0), 0.0))
  {
    if run == [] {
      assert before + run == before;
    } else {
      var front, e := run[..|run| - 1], run[|run| - 1];
      assert run == front + [e] && (before + run)[..|before + run| - 1] == before + front;
      FailuresInSplit(front, e, 0);
      FailuresAreCounted(before, front, cfg);
    }
  }

  /** From a forgiven state on, without a success: nothing is refused below the
      threshold, whatever probes come in between, and the failure that reaches it
      refuses exactly the probes within its cooldown. */
  lemma CountsStartAfresh(before: seq<Event>, k: nat, run: seq<Event>, cfg: Settings, now: real)
    requires Forgives(before, k, cfg) && cfg.threshold >= 1 && cfg.cooldown >= 1.0
    requires forall i | 0 <= i < |run| :: !run[i].kind.Success?
    ensures FailuresIn(run, 0) < cfg.threshold ==> !Blocks(ReplayOne(before + run, cfg), now)
    ensures FailuresIn(run, 0) == cfg.threshold && run != [] && run[|run| - 1].kind.Failure? && run[|run| - 1].at >= 0.0 ==>
              (Blocks(ReplayOne(before + run, cfg), now) <==> now < run[|run| - 1].at + cfg.cooldown)
  {
    ForgivenIsForgotten(before, k, cfg);
    if FailuresIn(run, 0) < cfg.threshold {
      FailuresAreCounted(before, run, cfg);
    }
    if FailuresIn(run, 0) == cfg.threshold && run != [] && run[|run| - 1].kind.Failure? {
      var front, e := run[..|run| - 1], run[|run| - 1];
      assert run == front + [e] && (before + run)[..|before + run| - 1] == before + front;
      FailuresInSplit(front, e, 0);
      FailuresAreCounted(before, front, cfg);
    }
  }
}
