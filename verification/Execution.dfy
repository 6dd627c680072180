/** Process-local controls: the publication fence and the bounded executor.

    Threads take one step at a time; a step that is not enabled does nothing. */
module Execution {
  import opened Text

  type Tid = nat

  // ---- ExecutionFence -------------------------------------------------

  /** Where a thread is in `publication(at)` or in `cancel()`. */
  datatype Phase =
    | Outside
    | WantsPublication(at: int)
    | HoldsForPublication(at: int)
    | Inside(told: bool, at: int)
    | WantsCancel
    | HoldsForCancel
    | CancelSet

  /** `returned` records that some call of `cancel()` has returned. */
  datatype Fence = Fence(deadline: int, cancelled: bool, holder: Option<Tid>, threads: map<Tid, Phase>, returned: bool)

  datatype FenceAct = Publish(at: int) | Cancel | Advance

  datatype FenceEvent = FenceEvent(tid: Tid, act: FenceAct)

  function At(f: Fence, t: Tid, phase: Phase): Fence {
    f.(threads := f.threads[t := phase])
  }

  function FenceStep(f: Fence, e: FenceEvent): Fence {
    if e.tid !in f.threads then f
    else
      var t := e.tid;
      match (f.threads[t], e.act)
      case (Outside, Publish(at)) => At(f, t, WantsPublication(at))
      case (Outside, Cancel) => At(f, t, WantsCancel)
      case (WantsPublication(at), Advance) =>
        if f.holder.None? then At(f, t, HoldsForPublication(at)).(holder := Some(t)) else f
      case (HoldsForPublication(at), Advance) => At(f, t, Inside(!f.cancelled && at < f.deadline, at))
      case (Inside(_, _), Advance) => At(f, t, Outside).(holder := None)
      case (WantsCancel, Advance) =>
        if f.holder.None? then At(f, t, HoldsForCancel).(holder := Some(t)) else f
      case (HoldsForCancel, Advance) => At(f, t, CancelSet).(cancelled := true)
      case (CancelSet, Advance) => At(f, t, Outside).(holder := None, returned := true)
      case _ => f
  }

  function FenceRun(f: Fence, events: seq<FenceEvent>): Fence {
    if events == [] then f else FenceStep(FenceRun(f, events[..|events| - 1]), events[|events| - 1])
  }

  predicate HoldsLock(phase: Phase) {
    phase.HoldsForPublication? || phase.Inside? || phase.HoldsForCancel? || phase.CancelSet?
  }

  ghost predicate FenceInv(f: Fence) {
    && (f.holder.Some? ==> f.holder.value in f.threads)
    && (forall t | t in f.threads :: HoldsLock(f.threads[t]) <==> f.holder == Some(t))
    && (forall t | t in f.threads && f.threads[t].Inside? && f.threads[t].told ::
          !f.cancelled && f.threads[t].at < f.deadline)
    && (forall t | t in f.threads && f.threads[t].CancelSet? :: f.cancelled)
    && (f.returned ==> f.cancelled)
  }

  ghost predicate FenceStart(f: Fence) {
    f.holder.None? && !f.returned && forall t | t in f.threads :: f.threads[t].Outside?
  }

  lemma FenceStepKeepsInv(f: Fence, e: FenceEvent)
    requires FenceInv(f)
    ensures FenceInv(FenceStep(f, e))
    ensures f.returned ==> FenceStep(f, e).returned
  {
  }

  lemma {:induction false} FenceRunKeepsInv(f: Fence, events: seq<FenceEvent>)
    requires FenceInv(f)
    ensures FenceInv(FenceRun(f, events)) && (f.returned ==> FenceRun(f, events).returned)
  {
    if events != [] {
      FenceRunKeepsInv(f, events[..|events| - 1]);
      FenceStepKeepsInv(FenceRun(f, events[..|events| - 1]), events[|events| - 1]);
    }
  }

  /** Once a `cancel()` has returned, no thread is inside a publication section
      that was told it is open, and none ever is again; sections never overlap,
      and an open one was asked for before the deadline. */
  lemma NothingIsPublishedAfterCancel(f: Fence, before: seq<FenceEvent>, after: seq<FenceEvent>, t: Tid, u: Tid)
    requires FenceStart(f)
    ensures
      var g := FenceRun(FenceRun(f, before), after);
      && (t in g.threads && g.threads[t].Inside? && g.threads[t].told ==>
            !FenceRun(f, before).returned && g.threads[t].at < g.deadline)
      && (t in g.threads && u in g.threads && g.threads[t].Inside? && g.threads[u].Inside? ==> t == u)
  {
    FenceRunKeepsInv(f, before);
    FenceRunKeepsInv(FenceRun(f, before), after);
  }

  function Ahead(f: Fence, t: Tid, act: FenceAct): Fence {
    FenceStep(f, FenceEvent(t, act))
  }

  /** With the lock free, a thread gets into its section, is told that it is open
      exactly when nobody has cancelled and its time is before the deadline, and
      leaves everything as it was. */
  lemma UninterruptedPublication(f: Fence, t: Tid, at: int)
    requires t in f.threads && f.threads[t].Outside? && f.holder.None?
    ensures
      var inside := Ahead(Ahead(Ahead(f, t, Publish(at)), t, Advance), t, Advance);
      && t in inside.threads && inside.threads[t] == Inside(!f.cancelled && at < f.deadline, at) && inside.holder == Some(t)
      && Ahead(inside, t, Advance) == f
  {
    var inside := Ahead(Ahead(Ahead(f, t, Publish(at)), t, Advance), t, Advance);
    assert inside.threads[t := Outside] == f.threads;
  }

  /** With the lock free, a cancel sets the flag and returns. */
  lemma UninterruptedCancel(f: Fence, t: Tid)
    requires t in f.threads && f.threads[t].Outside? && f.holder.None?
    ensures Ahead(Ahead(Ahead(Ahead(f, t, Cancel), t, Advance), t, Advance), t, Advance) == f.(cancelled := true, returned := true)
  {
    var done := Ahead(Ahead(Ahead(f, t, Cancel), t, Advance), t, Advance);
    assert done.threads[t := Outside] == f.threads;
  }

  // ---- BoundedExecutor ------------------------------------------------

  /** A submission: it has a permit and no future yet; its future lives, possibly
      done before the release callback is attached; its permit is back. */
  datatype Submission =
    | Acquired
    | Live(done: bool, callback: bool)
    | Released

  datatype Executor = Executor(max: nat, permits: int, submissions: map<nat, Submission>, releases: seq<nat>)

  datatype ExecAct = Acquire | SubmitRaises | SubmitReturns | AttachCallback | Complete

  datatype ExecEvent = ExecEvent(id: nat, act: ExecAct)

  function Release(x: Executor, id: nat): Executor {
    x.(permits := x.permits + 1, submissions := x.submissions[id := Released], releases := x.releases + [id])
  }

  function Put(x: Executor, id: nat, s: Submission): Executor {
    x.(submissions := x.submissions[id := s])
  }

  function ExecStep(x: Executor, e: ExecEvent): Executor {
    var id := e.id;
    if id !in x.submissions then
      if e.act.Acquire? && x.permits > 0 then Put(x, id, Acquired).(permits := x.permits - 1) else x
    else
      match (x.submissions[id], e.act)
      case (Acquired, SubmitRaises) => Release(x, id)
      case (Acquired, SubmitReturns) => Put(x, id, Live(false, false))
      case (Live(done, false), AttachCallback) => if done then Release(x, id) else Put(x, id, Live(false, true))
      case (Live(false, callback), Complete) => if callback then Release(x, id) else Put(x, id, Live(true, false))
      case _ => x
  }

  function ExecRun(x: Executor, events: seq<ExecEvent>): Executor {
    if events == [] then x else ExecStep(ExecRun(x, events[..|events| - 1]), events[|events| - 1])
  }

  /** Submissions that hold a permit. */
  function Outstanding(x: Executor): set<nat> {
    set id | id in x.submissions && !x.submissions[id].Released?
  }

  ghost predicate ExecInv(x: Executor) {
    && 0 <= x.permits
    && x.permits + |Outstanding(x)| == x.max
    && (forall id | id in x.submissions :: x.submissions[id].Released? <==> id in x.releases)
    && (forall id | id in x.releases :: id in x.submissions)
    && (forall i, j | 0 <= i < j < |x.releases| :: x.releases[i] != x.releases[j])
    && (forall id | id in x.submissions :: x.submissions[id] != Live(true, true))
  }

  lemma ReleaseKeepsInv(x: Executor, id: nat)
    requires ExecInv(x) && id in x.submissions && !x.submissions[id].Released?
    ensures ExecInv(Release(x, id))
  {
    assert Outstanding(Release(x, id)) == Outstanding(x) - {id};
  }

  lemma PutKeepsInv(x: Executor, id: nat, s: Submission)
    requires ExecInv(x) && id in x.submissions && !x.submissions[id].Released? && !s.Released? && s != Live(true, true)
    ensures ExecInv(Put(x, id, s))
  {
    assert Outstanding(Put(x, id, s)) == Outstanding(x);
  }

  lemma ExecStepKeepsInv(x: Executor, e: ExecEvent)
    requires ExecInv(x)
    ensures ExecInv(ExecStep(x, e)) && ExecStep(x, e).max == x.max
  {
    var id := e.id;
    if id !in x.submissions {
      if e.act.Acquire? && x.permits > 0 {
        assert Outstanding(ExecStep(x, e)) == Outstanding(x) + {id};
      }
    } else {
      match (x.submissions[id], e.act)
      case (Acquired, SubmitRaises) => ReleaseKeepsInv(x, id);
      case (Acquired, SubmitReturns) => PutKeepsInv(x, id, Live(false, false));
      case (Live(done, false), AttachCallback) =>
        if done { ReleaseKeepsInv(x, id); } else { PutKeepsInv(x, id, Live(false, true)); }
      case (Live(false, callback), Complete) =>
        if callback { ReleaseKeepsInv(x, id); } else { PutKeepsInv(x, id, Live(true, false)); }
      case _ =>
    }
  }

  lemma {:induction false} ExecRunKeepsInv(x: Executor, events: seq<ExecEvent>)
    requires ExecInv(x)
    ensures ExecInv(ExecRun(x, events)) && ExecRun(x, events).max == x.max
  {
    if events != [] {
      ExecRunKeepsInv(x, events[..|events| - 1]);
      ExecStepKeepsInv(ExecRun(x, events[..|events| - 1]), events[|events| - 1]);
    }
  }

  /** The pool still owes this submission something: a result of `submit`, a
      completion, or the attachment of the callback. */
  predicate Unsettled(s: Submission) {
    s.Acquired? || (s.Live? && !(s.done && s.callback))
  }

  /** In every run, also when a future is done before its callback is attached:
      free permits and outstanding submissions add up to the cap, no permit is
      given back twice, and all are back once every submission is settled. */
  lemma PermitsAreConserved(x: Executor, events: seq<ExecEvent>)
    requires x.permits == x.max && x.submissions == map[] && x.releases == []
    ensures
      var y := ExecRun(x, events);
      && 0 <= y.permits && y.permits + |Outstanding(y)| == x.max
      && (forall i, j | 0 <= i < j < |y.releases| :: y.releases[i] != y.releases[j])
      && ((forall id | id in y.submissions :: !Unsettled(y.submissions[id])) ==> y.permits == x.max)
  {
    assert Outstanding(x) == {};
    ExecRunKeepsInv(x, events);
    var y := ExecRun(x, events);
    if forall id | id in y.submissions :: !Unsettled(y.submissions[id]) {
      forall id | id in y.submissions ensures id !in Outstanding(y) {
        assert !Unsettled(y.submissions[id]);
      }
      assert Outstanding(y) == {};
    }
  }

  // ---- every permit comes back ----------------------------------------

  predicate Foreign(events: seq<ExecEvent>, id: nat) {
    forall i | 0 <= i < |events| :: events[i].id != id
  }

  lemma {:induction false} ForeignEventsLeaveIt(x: Executor, events: seq<ExecEvent>, id: nat)
    requires Foreign(events, id)
    ensures id in ExecRun(x, events).submissions <==> id in x.submissions
    ensures id in x.submissions ==> ExecRun(x, events).submissions[id] == x.submissions[id]
  {
    if events != [] {
      ForeignEventsLeaveIt(x, events[..|events| - 1], id);
    }
  }

  /** Whatever the others do, and then one event of this submission. */
  function Then(x: Executor, others: seq<ExecEvent>, id: nat, act: ExecAct): Executor {
    ExecStep(ExecRun(x, others), ExecEvent(id, act))
  }

  predicate IsAt(x: Executor, id: nat, s: Submission) {
    id in x.submissions && x.submissions[id] == s
  }

  /** A submission gets a permit exactly when one is free. */
  lemma FreePermitsAreGranted(x: Executor, others: seq<ExecEvent>, id: nat)
    requires id !in x.submissions && Foreign(others, id)
    ensures
      var y := ExecRun(x, others);
      Then(x, others, id, Acquire) == if y.permits > 0 then y.(permits := y.permits - 1, submissions := y.submissions[id := Acquired]) else y
  {
    ForeignEventsLeaveIt(x, others, id);
  }

  /** One event of a submission with a permit: the others' events do not matter. */
  lemma OneEvent(x: Executor, others: seq<ExecEvent>, id: nat, act: ExecAct)
    requires id in x.submissions && Foreign(others, id)
    ensures
      var y := Then(x, others, id, act);
      && (IsAt(x, id, Acquired) && act.SubmitRaises? ==> IsAt(y, id, Released))
      && (IsAt(x, id, Acquired) && act.SubmitReturns? ==> IsAt(y, id, Live(false, false)))
      && (IsAt(x, id, Live(false, false)) && act.AttachCallback? ==> IsAt(y, id, Live(false, true)))
      && (IsAt(x, id, Live(false, false)) && act.Complete? ==> IsAt(y, id, Live(true, false)))
      && (IsAt(x, id, Live(true, false)) && act.AttachCallback? ==> IsAt(y, id, Released))
      && (IsAt(x, id, Live(false, true)) && act.Complete? ==> IsAt(y, id, Released))
  {
    ForeignEventsLeaveIt(x, others, id);
  }

  /** Whatever the other submissions do in between, a submission gives its permit
      back when `submit` raises, and otherwise once its future is done and its
      callback attached, in either order. */
  lemma SubmissionsGiveBack(x: Executor, id: nat, others: seq<ExecEvent>, more: seq<ExecEvent>, most: seq<ExecEvent>)
    requires IsAt(x, id, Acquired) && Foreign(others, id) && Foreign(more, id) && Foreign(most, id)
    ensures
      var live := Then(x, others, id, SubmitReturns);
      && IsAt(Then(x, others, id, SubmitRaises), id, Released)
      && IsAt(Then(Then(live, more, id, AttachCallback), most, id, Complete), id, Released)
      && IsAt(Then(Then(live, more, id, Complete), most, id, AttachCallback), id, Released)
  {
    var live := Then(x, others, id, SubmitReturns);
    OneEvent(x, others, id, SubmitRaises);
    OneEvent(x, others, id, SubmitReturns);
    OneEvent(live, more, id, AttachCallback);
    OneEvent(live, more, id, Complete);
    OneEvent(Then(live, more, id, AttachCallback), most, id, Complete);
    OneEvent(Then(live, more, id, Complete), most, id, AttachCallback);
  }
}
