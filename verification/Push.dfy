/** The daily push: at most one digest for each fingerprint and day, and a
    debounce on changes that opened nothing. */
module Pushes {
  import opened Text
  import opened Inboxes

  /** What the platform says: a message id, nothing, or an exception. */
  datatype Delivery = Receipt | NoReceipt | Failed

  datatype Disposition =
    | NoOpenItems | AlreadySent | Debounced | DryRun | SenderRequired | TargetMissing | SendFailed | OutcomeUnknown | SentOut

  /** Why nothing is to be sent, if anything stands against it. */
  function Objection(s: Store, day: string): Option<Disposition> {
    if OpenIds(s) == {} then Some(NoOpenItems)
    else if FingerprintOf(s) in SentOn(s.ledger, day) then Some(AlreadySent)
    else if LastOn(s.ledger, day).Some? && !TransitionSince(s.events, LastOn(s.ledger, day).value) then Some(Debounced)
    else None
  }

  lemma {:induction false} SentHasLast(ledger: seq<Sent>, day: string)
    ensures SentOn(ledger, day) == {} <==> LastOn(ledger, day).None?
    ensures forall f :: f in SentOn(ledger, day) <==> Recorded(ledger, day, f)
  {
    if ledger != [] {
      var front, row := ledger[..|ledger| - 1], ledger[|ledger| - 1];
      SentHasLast(front, day);
      forall f ensures f in SentOn(ledger, day) <==> Recorded(ledger, day, f) {
        RecordedExtends(front, row, day, f);
        assert front + [row] == ledger;
      }
    }
  }

  lemma RecordedExtends(ledger: seq<Sent>, row: Sent, day: string, f: Fingerprint)
    ensures Recorded(ledger + [row], day, f) <==> Recorded(ledger, day, f) || (row.day == day && row.fingerprint == f)
  {
    var all := ledger + [row];
    assert all[|ledger|] == row;
    if Recorded(ledger, day, f) {
      var i :| 0 <= i < |ledger| && ledger[i].day == day && ledger[i].fingerprint == f;
      assert all[i] == ledger[i];
    }
  }

  /** One attempt by itself.  Nothing is written unless the platform gave a
      message id, and then exactly the digest's fingerprint for the day. */
  method Push(inbox: AdjudicationInbox, sender: Option<Delivery>, target: bool, dryRun: bool, day: string, now: real)
    returns (d: Disposition)
    modifies inbox
    ensures Objection(old(inbox.Contents()), day).Some? ==> d == Objection(old(inbox.Contents()), day).value
    ensures Objection(old(inbox.Contents()), day).None? ==> !(d.NoOpenItems? || d.AlreadySent? || d.Debounced?)
    ensures d.DryRun? || d.SenderRequired? || d.TargetMissing? ==> dryRun || sender.None? || !target
    ensures d.SentOut? <==> Objection(old(inbox.Contents()), day).None? && !dryRun && target && sender == Some(Receipt)
    ensures d.OutcomeUnknown? <==> Objection(old(inbox.Contents()), day).None? && !dryRun && target && sender == Some(NoReceipt)
    ensures !d.SentOut? ==> inbox.Contents() == old(inbox.Contents())
    ensures d.SentOut? ==>
              inbox.Contents() == old(inbox.Contents()).(ledger := old(inbox.ledger) + [Sent(day, FingerprintOf(old(inbox.Contents())), now)])
  {
    var objection, fingerprint := Check(inbox, day);
    if objection.Some? {
      return objection.value;
    }
    if dryRun {
      return DryRun;
    } else if sender.None? {
      return SenderRequired;
    } else if !target {
      return TargetMissing;
    }
    match sender.value {
      case Failed => return SendFailed;
      case NoReceipt => return OutcomeUnknown;
      case Receipt =>
    }
    inbox.RecordSent(day, fingerprint, now);
    d := SentOut;
  }

  /** The reads before anything is sent. */
  method Check(inbox: AdjudicationInbox, day: string) returns (objection: Option<Disposition>, fingerprint: Fingerprint)
    ensures objection == Objection(inbox.Contents(), day)
    ensures objection.None? ==> fingerprint == FingerprintOf(inbox.Contents()) && !Recorded(inbox.ledger, day, fingerprint)
  {
    ghost var s := inbox.Contents();
    SentHasLast(s.ledger, day);
    fingerprint := {};
    var rows := map id | id in inbox.items && inbox.items[id].life.status.Open? :: inbox.items[id];
    assert rows.Keys == OpenIds(s);
    if |rows.Keys| == 0 {
      return Some(NoOpenItems), fingerprint;
    }
    fingerprint := set id | id in rows.Keys :: (id, rows[id].item.title);
    assert fingerprint == FingerprintOf(s);
    var sent := inbox.SentDayFingerprints(day);
    if fingerprint in sent {
      return Some(AlreadySent), fingerprint;
    }
    if sent != {} {
      var last := inbox.LastSentAt(day);
      var moved := inbox.HasTransitionSince(if last.Some? then last.value else 0.0);
      if !moved {
        return Some(Debounced), fingerprint;
      }
    }
    objection := None;
  }

  // ---- one pusher among producers and owners --------------------------

  type Pid = nat

  /** A producer's or owner's call that has read its clock and waits for the
      write lock of the database. */
  datatype Pending = Pending(call: Call, at: real)

  /** What one attempt saw when it listed the open items; `seen` counts the log
      events committed by then. */
  datatype Digest = Digest(day: string, fingerprint: Fingerprint, ids: set<string>, seen: nat)

  datatype Phase =
    | Idle
    | Listed(digest: Digest)
    | Checked(digest: Digest, last: real)
    | Sending(digest: Digest)
    | Delivered(digest: Digest)
    | Stamped(digest: Digest, at: real)

  /** `shown` is the last digest recorded for a day; `delivered` is what the
      platform confirmed. */
  datatype State = State(
    store: Store,
    clock: real,
    pending: map<Pid, Pending>,
    phase: Phase,
    shown: map<string, Digest>,
    delivered: set<(string, Fingerprint)>)

  /** Every transaction reads the clock first and commits later, so calls may
      commit in another order than their stamps. */
  datatype Act =
    | ReadClock(pid: Pid, call: Call)
    | Commit(pid: Pid)
    | Abandon(pid: Pid)
    | List(day: string)
    | ReadLedger
    | Decide
    | Deliver(receipt: bool)
    | Stamp
    | Record
    | GiveUp

  /** The clock is strict: an event not later than the clock does nothing. */
  datatype Tick = Tick(now: real, act: Act)

  const START := State(EMPTY, 0.0, map[], Idle, map[], {})

  function ProducerStep(s: State, act: Act, now: real): State {
    match act
    case ReadClock(p, call) => if p in s.pending then s else s.(pending := s.pending[p := Pending(call, now)])
    case Commit(p) =>
      if p !in s.pending then s
      else s.(store := Called(s.store, s.pending[p].call, s.pending[p].at), pending := s.pending - {p})
    case Abandon(p) => s.(pending := s.pending - {p})
    case _ => s
  }

  function ReadLedgerOf(s: State): Phase
    requires s.phase.Listed?
  {
    var d := s.phase.digest;
    if d.fingerprint in SentOn(s.store.ledger, d.day) then Idle
    else if LastOn(s.store.ledger, d.day).None? then Sending(d)
    else Checked(d, LastOn(s.store.ledger, d.day).value)
  }

  function RecordOf(s: State): State
    requires s.phase.Stamped?
  {
    var d := s.phase.digest;
    s.(phase := Idle, store := WithSent(s.store, d.day, d.fingerprint, s.phase.at), shown := s.shown[d.day := d])
  }

  function DigestOf(s: Store, day: string): Digest {
    Digest(day, FingerprintOf(s), OpenIds(s), |s.events|)
  }

  function PusherStep(s: State, act: Act, now: real): State {
    match (s.phase, act)
    case (Idle, List(day)) => if OpenIds(s.store) == {} then s else s.(phase := Listed(DigestOf(s.store, day)))
    case (Listed(_), ReadLedger) => s.(phase := ReadLedgerOf(s))
    case (Checked(d, last), Decide) => s.(phase := if TransitionSince(s.store.events, last) then Sending(d) else Idle)
    case (Sending(d), Deliver(true)) => s.(phase := Delivered(d), delivered := s.delivered + {(d.day, d.fingerprint)})
    case (Sending(d), Deliver(false)) => s.(phase := Idle)
    case (Delivered(d), Stamp) => s.(phase := Stamped(d, now))
    case (Stamped(_, _), Record) => RecordOf(s)
    case (_, GiveUp) => s.(phase := Idle)
    case _ => s
  }

  function Perform(s: State, act: Act, now: real): State {
    if act.ReadClock? || act.Commit? || act.Abandon? then ProducerStep(s, act, now) else PusherStep(s, act, now)
  }

  function Step(s: State, e: Tick): State {
    if e.now <= s.clock then s else Perform(s, e.act, e.now).(clock := e.now)
  }

  function Run(s: State, events: seq<Tick>): State {
    if events == [] then s else Step(Run(s, events[..|events| - 1]), events[|events| - 1])
  }

  // ---- counting -------------------------------------------------------

  function CountOn(ledger: seq<Sent>, day: string): nat {
    if ledger == [] then 0
    else CountOn(ledger[..|ledger| - 1], day) + if ledger[|ledger| - 1].day == day then 1 else 0
  }

  function FirstOn(ledger: seq<Sent>, day: string): Option<real> {
    if ledger == [] then None
    else
      var rest := FirstOn(ledger[..|ledger| - 1], day);
      if rest.Some? then rest
      else if ledger[|ledger| - 1].day == day then Some(ledger[|ledger| - 1].at) else None
  }

  /** Submit and reopen events strictly between two times. */
  function Between(events: seq<Event>, lo: real, hi: real): nat {
    if events == [] then 0
    else
      var e := events[|events| - 1];
      Between(events[..|events| - 1], lo, hi) + if Opens(e) && lo < e.at < hi then 1 else 0
  }

  function After(events: seq<Event>, lo: real): nat {
    if events == [] then 0
    else
      var e := events[|events| - 1];
      After(events[..|events| - 1], lo) + if Opens(e) && lo < e.at then 1 else 0
  }

  lemma {:induction false} BetweenIsAfter(events: seq<Event>, lo: real, hi: real)
    ensures Between(events, lo, hi) <= After(events, lo)
  {
    if events != [] {
      BetweenIsAfter(events[..|events| - 1], lo, hi);
    }
  }

  lemma {:induction false} BetweenGrows(events: seq<Event>, lo: real, mid: real, hi: real)
    requires mid <= hi
    ensures Between(events, lo, mid) <= Between(events, lo, hi)
    ensures lo <= mid ==> forall i | 0 <= i < |events| && Opens(events[i]) && mid < events[i].at < hi ::
                            Between(events, lo, mid) < Between(events, lo, hi)
  {
    if events != [] {
      BetweenGrows(events[..|events| - 1], lo, mid, hi);
      forall i | 0 <= i < |events| && Opens(events[i]) && lo <= mid < events[i].at < hi
        ensures Between(events, lo, mid) < Between(events, lo, hi)
      {
        if i < |events| - 1 {
          assert events[..|events| - 1][i] == events[i];
        }
      }
    }
  }

  // ---- what every step keeps ------------------------------------------

  ghost predicate PastEvents(events: seq<Event>, clock: real) {
    forall i | 0 <= i < |events| :: events[i].at <= clock
  }

  ghost predicate PastPending(pending: map<Pid, Pending>, clock: real) {
    forall p | p in pending :: pending[p].at <= clock
  }

  /** No event has or will get this time. */
  ghost predicate Unused(events: seq<Event>, pending: map<Pid, Pending>, at: real) {
    && (forall i | 0 <= i < |events| :: events[i].at != at)
    && (forall p | p in pending :: pending[p].at != at)
  }

  /** All times are in the past, and no event shares its time with a send. */
  ghost predicate InTime(s: State) {
    && PastEvents(s.store.events, s.clock) && PastPending(s.pending, s.clock)
    && (forall j | 0 <= j < |s.store.ledger| :: s.store.ledger[j].at <= s.clock)
    && (forall j | 0 <= j < |s.store.ledger| :: Unused(s.store.events, s.pending, s.store.ledger[j].at))
  }

  ghost predicate Confirmed(s: State) {
    && (forall i | 0 <= i < |s.store.ledger| :: (s.store.ledger[i].day, s.store.ledger[i].fingerprint) in s.delivered)
    && (forall i, j | 0 <= i < j < |s.store.ledger| ::
          (s.store.ledger[i].day, s.store.ledger[i].fingerprint) != (s.store.ledger[j].day, s.store.ledger[j].fingerprint))
    && (s.phase.Delivered? || s.phase.Stamped? ==> (s.phase.digest.day, s.phase.digest.fingerprint) in s.delivered)
  }

  predicate OpenedBetween(events: seq<Event>, lo: real, hi: real) {
    exists i | 0 <= i < |events| :: Opens(events[i]) && lo < events[i].at < hi
  }

  /** The stamp of a send is later than every send, and no event's time. */
  ghost predicate Stampable(s: State, d: Digest, at: real) {
    && at <= s.clock && Unused(s.store.events, s.pending, at)
    && (forall j | 0 <= j < |s.store.ledger| :: s.store.ledger[j].at < at)
    && (var last := LastOn(s.store.ledger, d.day); last.Some? ==> OpenedBetween(s.store.events, last.value, at))
  }

  /** Past the ledger check the digest is new for its day; past the debounce
      something opened since the day's last send. */
  ghost predicate Cleared(s: State) {
    && (s.phase.Checked? || s.phase.Sending? || s.phase.Delivered? || s.phase.Stamped? ==>
          !Recorded(s.store.ledger, s.phase.digest.day, s.phase.digest.fingerprint))
    && (s.phase.Checked? ==> LastOn(s.store.ledger, s.phase.digest.day) == Some(s.phase.last))
    && (s.phase.Sending? || s.phase.Delivered? ==>
          var last := LastOn(s.store.ledger, s.phase.digest.day);
          last.Some? ==> TransitionSince(s.store.events, last.value))
    && (s.phase.Stamped? ==> Stampable(s, s.phase.digest, s.phase.at))
  }

  ghost predicate Bounded(s: State, day: string) {
    var first, last := FirstOn(s.store.ledger, day), LastOn(s.store.ledger, day);
    && (first.Some? <==> last.Some?)
    && (first.None? <==> CountOn(s.store.ledger, day) == 0)
    && (first.Some? ==> first.value <= last.value)
    && (first.Some? ==> exists j | 0 <= j < |s.store.ledger| :: s.store.ledger[j].at == last.value)
    && (first.Some? ==> CountOn(s.store.ledger, day) <= 1 + Between(s.store.events, first.value, last.value))
  }

  predicate IsOpen(life: Option<Life>) {
    life.Some? && life.value.status.Open?
  }

  /** A digest shows exactly the items that are open by the events it had seen. */
  ghost predicate Sees(d: Digest, events: seq<Event>) {
    d.seen <= |events| && forall id :: id in d.ids <==> IsOpen(LifeOf(events[..d.seen], id))
  }

  ghost predicate Shown(s: State) {
    && (forall day :: day in s.shown <==> LastOn(s.store.ledger, day).Some?)
    && (!s.phase.Idle? ==> Sees(s.phase.digest, s.store.events))
    && (forall day | day in s.shown :: Sees(s.shown[day], s.store.events))
  }

  ghost predicate Inv(s: State) {
    Consistent(s.store) && InTime(s) && Confirmed(s) && Cleared(s) && (forall day :: Bounded(s, day)) && Shown(s)
  }

  /** A call adds at most one event, with its own stamp. */
  ghost predicate Advances(a: Store, b: Store, at: real) {
    && Consistent(b) && b.ledger == a.ledger
    && (b.events == a.events || exists e :: b.events == a.events + [e] && e.at == at)
  }

  lemma CalledAdvances(s: Store, call: Call, at: real)
    requires Consistent(s)
    ensures Advances(s, Called(s, call, at), at)
  {
    CalledIsConsistent(s, call, at);
    var t := Called(s, call, at);
    if t.events != s.events {
      assert t.events == s.events + [t.events[|s.events|]];
    }
  }

  lemma TransitionsStay(a: seq<Event>, b: seq<Event>)
    requires a <= b
    ensures forall since :: TransitionSince(a, since) ==> TransitionSince(b, since)
    ensures forall lo, hi :: OpenedBetween(a, lo, hi) ==> OpenedBetween(b, lo, hi)
  {
    forall since | TransitionSince(a, since) ensures TransitionSince(b, since) {
      var i :| 0 <= i < |a| && Opens(a[i]) && a[i].at >= since;
      assert b[i] == a[i];
    }
    forall lo, hi | OpenedBetween(a, lo, hi) ensures OpenedBetween(b, lo, hi) {
      var i :| 0 <= i < |a| && Opens(a[i]) && lo < a[i].at < hi;
      assert b[i] == a[i];
    }
  }

  lemma AdvanceKeepsBounds(s: State, t: State, at: real, day: string)
    requires Bounded(s, day) && Advances(s.store, t.store, at)
    ensures Bounded(t, day)
  {
    if t.store.events != s.store.events {
      var e :| t.store.events == s.store.events + [e] && e.at == at;
      assert t.store.events[..|s.store.events|] == s.store.events;
    }
  }

  lemma SeesStays(d: Digest, a: seq<Event>, b: seq<Event>)
    requires a <= b && Sees(d, a)
    ensures Sees(d, b)
  {
    assert b[..d.seen] == a[..d.seen];
  }

  /** The committed stamp was pending, so it is no send's time. */
  lemma CommitKeepsTimes(s: State, t: State, p: Pid)
    requires InTime(s) && Cleared(s) && p in s.pending && Advances(s.store, t.store, s.pending[p].at)
    requires t.pending == s.pending - {p} && t.phase == s.phase && t.clock >= s.clock
    ensures InTime(t) && Cleared(t)
  {
    TransitionsStay(s.store.events, t.store.events);
    forall at | Unused(s.store.events, s.pending, at) ensures Unused(t.store.events, t.pending, at) {
      assert s.pending[p].at != at;
    }
  }

  lemma CommitKeeps(s: State, p: Pid, now: real)
    requires Inv(s) && now > s.clock && p in s.pending
    ensures Inv(Step(s, Tick(now, Commit(p))))
  {
    var t := Step(s, Tick(now, Commit(p)));
    CalledAdvances(s.store, s.pending[p].call, s.pending[p].at);
    assert Advances(s.store, t.store, s.pending[p].at);
    CommitKeepsTimes(s, t, p);
    forall day ensures Bounded(t, day) {
      AdvanceKeepsBounds(s, t, s.pending[p].at, day);
    }
    forall d: Digest | Sees(d, s.store.events) ensures Sees(d, t.store.events) {
      SeesStays(d, s.store.events, t.store.events);
    }
  }

  /** A step that changes neither the store nor what was shown. */
  lemma ReadsKeep(s: State, t: State)
    requires Inv(s) && t.store == s.store && t.shown == s.shown && s.delivered <= t.delivered
    requires InTime(t) && Cleared(t) && (t.phase.Idle? || Sees(t.phase.digest, s.store.events))
    requires t.phase.Delivered? || t.phase.Stamped? ==> (t.phase.digest.day, t.phase.digest.fingerprint) in t.delivered
    ensures Inv(t)
  {
    forall day ensures Bounded(t, day) {
      assert Bounded(s, day);
    }
  }

  lemma ReadClockKeeps(s: State, act: Act, now: real)
    requires Inv(s) && now > s.clock && (act.ReadClock? || act.Abandon? || (act.Commit? && act.pid !in s.pending))
    ensures Inv(Step(s, Tick(now, act)))
  {
    ReadsKeep(s, Step(s, Tick(now, act)));
  }

  lemma ListKeeps(s: State, day: string, now: real)
    requires Inv(s) && now > s.clock && s.phase.Idle? && OpenIds(s.store) != {}
    ensures Inv(Step(s, Tick(now, List(day))))
  {
    var t := Step(s, Tick(now, List(day)));
    assert s.store.events[..|s.store.events|] == s.store.events;
    forall id ensures id in OpenIds(s.store) <==> IsOpen(LifeOf(s.store.events, id)) {
      assert LifeIn(s.store, id) == LifeOf(s.store.events, id);
    }
    ReadsKeep(s, t);
  }

  lemma CheckKeeps(s: State, act: Act, now: real)
    requires Inv(s) && now > s.clock && ((s.phase.Listed? && act.ReadLedger?) || (s.phase.Checked? && act.Decide?))
    ensures Inv(Step(s, Tick(now, act)))
  {
    SentHasLast(s.store.ledger, s.phase.digest.day);
    ReadsKeep(s, Step(s, Tick(now, act)));
  }

  lemma StampKeeps(s: State, now: real)
    requires Inv(s) && now > s.clock && s.phase.Delivered?
    ensures Inv(Step(s, Tick(now, Stamp)))
  {
    var t := Step(s, Tick(now, Stamp));
    var last := LastOn(s.store.ledger, s.phase.digest.day);
    if last.Some? {
      OpenedSinceLast(s, s.phase.digest.day, now);
    }
    ReadsKeep(s, t);
  }

  lemma OpenedSinceLast(s: State, day: string, now: real)
    requires InTime(s) && Bounded(s, day) && LastOn(s.store.ledger, day).Some? && now > s.clock
    requires TransitionSince(s.store.events, LastOn(s.store.ledger, day).value)
    ensures OpenedBetween(s.store.events, LastOn(s.store.ledger, day).value, now)
  {
    var last := LastOn(s.store.ledger, day).value;
    var i :| 0 <= i < |s.store.events| && Opens(s.store.events[i]) && s.store.events[i].at >= last;
    var j :| 0 <= j < |s.store.ledger| && s.store.ledger[j].at == last;
    assert Unused(s.store.events, s.pending, s.store.ledger[j].at);
  }

  lemma RecordAppends(s: State)
    requires Inv(s) && s.phase.Stamped?
    ensures RecordOf(s).store == s.store.(ledger := s.store.ledger + [Sent(s.phase.digest.day, s.phase.digest.fingerprint, s.phase.at)])
  {
  }

  lemma LastExtends(ledger: seq<Sent>, row: Sent, day: string)
    ensures
      var last := LastOn(ledger, day);
      LastOn(ledger + [row], day) ==
        if row.day != day || (last.Some? && last.value > row.at) then last else Some(row.at)
    ensures FirstOn(ledger + [row], day) ==
            if FirstOn(ledger, day).Some? then FirstOn(ledger, day) else if row.day == day then Some(row.at) else None
    ensures CountOn(ledger + [row], day) == CountOn(ledger, day) + if row.day == day then 1 else 0
  {
    assert (ledger + [row])[..|ledger|] == ledger;
  }

  lemma RecordBounds(s: State, t: State, day: string)
    requires Bounded(s, day) && s.phase.Stamped? && Cleared(s) && t.store.events == s.store.events
    requires t.store.ledger == s.store.ledger + [Sent(s.phase.digest.day, s.phase.digest.fingerprint, s.phase.at)]
    ensures Bounded(t, day)
  {
    var d, at, ledger, events := s.phase.digest, s.phase.at, s.store.ledger, s.store.events;
    LastExtends(ledger, Sent(d.day, d.fingerprint, at), day);
    var first, last := FirstOn(ledger, day), LastOn(ledger, day);
    if first.Some? {
      var j :| 0 <= j < |ledger| && ledger[j].at == last.value;
      assert t.store.ledger[j] == ledger[j];
      if day == d.day {
        assert t.store.ledger[|ledger|].at == at;
        var i :| 0 <= i < |events| && Opens(events[i]) && last.value < events[i].at < at;
        BetweenGrows(events, first.value, last.value, at);
      }
    } else if day == d.day {
      assert t.store.ledger[|ledger|].at == at;
    }
  }

  lemma RecordConfirms(s: State, t: State)
    requires Confirmed(s) && s.phase.Stamped? && t.phase.Idle? && t.delivered == s.delivered
    requires !Recorded(s.store.ledger, s.phase.digest.day, s.phase.digest.fingerprint)
    requires t.store.ledger == s.store.ledger + [Sent(s.phase.digest.day, s.phase.digest.fingerprint, s.phase.at)]
    ensures Confirmed(t)
  {
    forall i, j | 0 <= i < j < |t.store.ledger|
      ensures (t.store.ledger[i].day, t.store.ledger[i].fingerprint) != (t.store.ledger[j].day, t.store.ledger[j].fingerprint)
    {
      assert j < |s.store.ledger| || t.store.ledger[i] == s.store.ledger[i];
    }
  }

  lemma RecordKeeps(s: State, now: real)
    requires Inv(s) && now > s.clock && s.phase.Stamped?
    ensures Inv(Step(s, Tick(now, Record)))
  {
    var t := Step(s, Tick(now, Record));
    var d := s.phase.digest;
    RecordAppends(s);
    RecordConfirms(s, t);
    assert Consistent(t.store) by {
      assert forall id :: LifeIn(t.store, id) == LifeIn(s.store, id);
    }
    forall day ensures Bounded(t, day) {
      RecordBounds(s, t, day);
    }
    forall day ensures day in t.shown <==> LastOn(t.store.ledger, day).Some? {
      LastExtends(s.store.ledger, Sent(d.day, d.fingerprint, s.phase.at), day);
    }
  }

  lemma GiveUpKeeps(s: State, now: real)
    requires Inv(s) && now > s.clock
    ensures Inv(Step(s, Tick(now, GiveUp)))
  {
    ReadsKeep(s, Step(s, Tick(now, GiveUp)));
  }

  lemma TimeKeeps(s: State, now: real)
    requires Inv(s) && now > s.clock
    ensures Inv(s.(clock := now))
  {
    ReadsKeep(s, s.(clock := now));
  }

  lemma DeliverKeeps(s: State, receipt: bool, now: real)
    requires Inv(s) && now > s.clock && s.phase.Sending?
    ensures Inv(Step(s, Tick(now, Deliver(receipt))))
  {
    ReadsKeep(s, Step(s, Tick(now, Deliver(receipt))));
  }

  lemma PusherKeeps(s: State, act: Act, now: real)
    requires Inv(s) && now > s.clock && !(act.ReadClock? || act.Commit? || act.Abandon?)
    ensures Inv(Step(s, Tick(now, act)))
  {
    GiveUpKeeps(s, now);
    TimeKeeps(s, now);
    match (s.phase, act)
    case (Idle, List(day)) => if OpenIds(s.store) != {} { ListKeeps(s, day, now); }
    case (Listed(_), ReadLedger) => CheckKeeps(s, act, now);
    case (Checked(_, _), Decide) => CheckKeeps(s, act, now);
    case (Sending(_), Deliver(receipt)) => DeliverKeeps(s, receipt, now);
    case (Delivered(_), Stamp) => StampKeeps(s, now);
    case (Stamped(_, _), Record) => RecordKeeps(s, now);
    case _ =>
  }

  lemma {:induction false} EveryRunKeeps(events: seq<Tick>)
    ensures Inv(Run(START, events))
  {
    if events != [] {
      var s, e := Run(START, events[..|events| - 1]), events[|events| - 1];
      EveryRunKeeps(events[..|events| - 1]);
      if e.now > s.clock {
        if e.act.Commit? && e.act.pid in s.pending {
          CommitKeeps(s, e.act.pid, e.now);
        } else if e.act.ReadClock? || e.act.Commit? || e.act.Abandon? {
          ReadClockKeeps(s, e.act, e.now);
        } else {
          PusherKeeps(s, e.act, e.now);
        }
      }
    }
  }

  // ---- the results ----------------------------------------------------

  lemma {:induction false} LastIsLatest(ledger: seq<Sent>, day: string)
    ensures LastOn(ledger, day).Some? <==> exists i | 0 <= i < |ledger| :: ledger[i].day == day
    ensures LastOn(ledger, day).Some? ==>
              && (exists i | 0 <= i < |ledger| :: ledger[i].day == day && ledger[i].at == LastOn(ledger, day).value)
              && (forall i | 0 <= i < |ledger| && ledger[i].day == day :: ledger[i].at <= LastOn(ledger, day).value)
  {
    if ledger != [] {
      var front := ledger[..|ledger| - 1];
      LastIsLatest(front, day);
      assert forall i | 0 <= i < |front| :: front[i] == ledger[i];
    }
  }

  /** An item was submitted or reopened at or after a time. */
  predicate OpenedSince(events: seq<Event>, since: real) {
    exists i | 0 <= i < |events| :: (events[i].action == Submit || events[i].action == Reopen) && events[i].at >= since
  }

  /** A digest is sent exactly when an item is open, this digest was not recorded
      on the day, and something opened at or after each send of the day. */
  lemma DigestsAreDue(s: Store, day: string)
    ensures
      var shown := set id | id in s.items && s.items[id].life.status == Open :: (id, s.items[id].item.title);
      var recorded := exists i | 0 <= i < |s.ledger| :: s.ledger[i].day == day && s.ledger[i].fingerprint == shown;
      Objection(s, day) ==
        if shown == {} then Some(NoOpenItems)
        else if recorded then Some(AlreadySent)
        else if exists i | 0 <= i < |s.ledger| :: s.ledger[i].day == day && !OpenedSince(s.events, s.ledger[i].at) then Some(Debounced)
        else None
  {
    var shown := set id | id in s.items && s.items[id].life.status == Open :: (id, s.items[id].item.title);
    assert shown == FingerprintOf(s);
    assert shown == {} <==> OpenIds(s) == {} by {
      forall id | id in OpenIds(s) ensures (id, s.items[id].item.title) in shown {
      }
    }
    SentHasLast(s.ledger, day);
    LastIsLatest(s.ledger, day);
    assert forall since :: TransitionSince(s.events, since) <==> OpenedSince(s.events, since);
    if LastOn(s.ledger, day).Some? {
      LaterIsHarder(s.events, s.ledger, day);
    }
  }

  lemma LaterIsHarder(events: seq<Event>, ledger: seq<Sent>, day: string)
    requires LastOn(ledger, day).Some?
    ensures OpenedSince(events, LastOn(ledger, day).value) <==>
            forall i | 0 <= i < |ledger| && ledger[i].day == day :: OpenedSince(events, ledger[i].at)
  {
    LastIsLatest(ledger, day);
    var last := LastOn(ledger, day).value;
    if OpenedSince(events, last) {
      var k :| 0 <= k < |events| && (events[k].action == Submit || events[k].action == Reopen) && events[k].at >= last;
      forall i | 0 <= i < |ledger| && ledger[i].day == day ensures OpenedSince(events, ledger[i].at) {
        assert events[k].at >= ledger[i].at;
      }
    }
  }

  /** A producer's or owner's call is committed as of the clock it read, however
      late, unless it is abandoned; it changes nothing else. */
  lemma CallsAreCommitted(s: State, p: Pid, call: Call, at: real, later: real)
    requires p !in s.pending && s.clock < at < later
    ensures
      var read := Step(s, Tick(at, ReadClock(p, call)));
      && read == s.(clock := at, pending := s.pending[p := Pending(call, at)])
      && Step(read, Tick(later, Commit(p))) == s.(clock := later, store := Called(s.store, call, at))
      && Step(read, Tick(later, Abandon(p))) == s.(clock := later)
  {
    assert s.pending[p := Pending(call, at)] - {p} == s.pending;
  }

  /** An attempt may end at any step, and leaves everything else as it is; a
      digest that the platform did not take ends it. */
  lemma AttemptsMayEnd(s: State, now: real)
    requires s.clock < now
    ensures Step(s, Tick(now, GiveUp)) == s.(clock := now, phase := Idle)
    ensures s.phase.Sending? ==> Step(s, Tick(now, Deliver(false))) == s.(clock := now, phase := Idle)
  {
  }

  /** The first half of an attempt that nothing interrupts: list and decide. */
  function Begin(s: State, day: string): State {
    var listed := Step(s, Tick(s.clock + 1.0, List(day)));
    var checked := Step(listed, Tick(s.clock + 2.0, ReadLedger));
    Step(checked, Tick(s.clock + 3.0, Decide))
  }

  /** The second half: send, read the clock and record. */
  function Finish(s: State, receipt: bool): State {
    var delivered := Step(s, Tick(s.clock + 1.0, Deliver(receipt)));
    var stamped := Step(delivered, Tick(s.clock + 2.0, Stamp));
    Step(stamped, Tick(s.clock + 3.0, Record))
  }

  lemma BeginReachesTheSender(s: State, day: string)
    requires s.phase.Idle?
    ensures Begin(s, day) == s.(clock := s.clock + 3.0,
                                phase := if Objection(s.store, day).None? then Sending(DigestOf(s.store, day)) else Idle)
  {
    SentHasLast(s.store.ledger, day);
  }

  lemma SendingIsRecorded(s: State, receipt: bool)
    requires s.phase.Sending? && !Recorded(s.store.ledger, s.phase.digest.day, s.phase.digest.fingerprint)
    ensures
      var d := s.phase.digest;
      && Finish(s, receipt).phase.Idle?
      && Finish(s, receipt).store ==
           if receipt then s.store.(ledger := s.store.ledger + [Sent(d.day, d.fingerprint, s.clock + 2.0)]) else s.store
  {
  }

  lemma IdleStaysIdle(s: State, receipt: bool)
    requires s.phase.Idle?
    ensures Finish(s, receipt).phase.Idle? && Finish(s, receipt).store == s.store
  {
  }

  lemma UnobjectedIsUnrecorded(s: Store, day: string)
    requires Objection(s, day).None?
    ensures !Recorded(s.ledger, day, FingerprintOf(s))
  {
    SentHasLast(s.ledger, day);
  }

  /** By itself, an attempt of the runs writes what one call of the push writes
      whose digest is handed to the platform. */
  lemma AttemptIsAPush(s: State, day: string, receipt: bool)
    requires s.phase.Idle?
    ensures
      var done := Finish(Begin(s, day), receipt);
      && done.phase.Idle?
      && done.store ==
           if Objection(s.store, day).None? && receipt
           then s.store.(ledger := s.store.ledger + [Sent(day, FingerprintOf(s.store), s.clock + 5.0)])
           else s.store
  {
    BeginReachesTheSender(s, day);
    var decided := Begin(s, day);
    if Objection(s.store, day).None? {
      UnobjectedIsUnrecorded(s.store, day);
      SendingIsRecorded(decided, receipt);
    } else {
      IdleStaysIdle(decided, receipt);
    }
  }

  /** In every run with one pusher and a strict clock: a fingerprint is recorded
      only after the platform confirmed it, a day's fingerprints are distinct,
      and a day has at most one send more than items opened after its first. */
  lemma SendsAreBounded(events: seq<Tick>, day: string)
    ensures
      var s := Run(START, events);
      && (forall f :: f in SentOn(s.store.ledger, day) ==> (day, f) in s.delivered)
      && CountOn(s.store.ledger, day) == |SentOn(s.store.ledger, day)|
      && (CountOn(s.store.ledger, day) > 0 ==>
            FirstOn(s.store.ledger, day).Some? &&
            CountOn(s.store.ledger, day) <= 1 + After(s.store.events, FirstOn(s.store.ledger, day).value))
  {
    var s := Run(START, events);
    EveryRunKeeps(events);
    assert Bounded(s, day);
    SentHasLast(s.store.ledger, day);
    DistinctSendsCount(s.store.ledger, day);
    if CountOn(s.store.ledger, day) > 0 {
      BetweenIsAfter(s.store.events, FirstOn(s.store.ledger, day).value, LastOn(s.store.ledger, day).value);
    }
  }

  lemma {:induction false} DistinctSendsCount(ledger: seq<Sent>, day: string)
    requires forall i, j | 0 <= i < j < |ledger| :: (ledger[i].day, ledger[i].fingerprint) != (ledger[j].day, ledger[j].fingerprint)
    ensures CountOn(ledger, day) == |SentOn(ledger, day)|
  {
    if ledger != [] {
      var front, row := ledger[..|ledger| - 1], ledger[|ledger| - 1];
      DistinctSendsCount(front, day);
      if row.day == day {
        SentHasLast(front, day);
        assert forall i | 0 <= i < |front| :: front[i] == ledger[i];
        assert !Recorded(front, day, row.fingerprint);
      }
    }
  }

  /** An open item's opening is in the log. */
  lemma {:induction false} OpeningIsLogged(events: seq<Event>, id: string)
    requires Lawful(events) && LifeOf(events, id).Some?
    ensures TransitionSince(events, LifeOf(events, id).value.openedAt)
  {
    var front, e := events[..|events| - 1], events[|events| - 1];
    if e.id == id && Opens(e) {
    } else {
      OpeningIsLogged(front, id);
      var since := LifeOf(front, id).value.openedAt;
      var i :| 0 <= i < |front| && Opens(front[i]) && front[i].at >= since;
      assert events[i] == front[i];
    }
  }

  /** The event at `i` is the item's first from `lo` on. */
  predicate FirstFrom(events: seq<Event>, lo: nat, i: nat, id: string) {
    lo <= i < |events| && events[i].id == id && forall j | lo <= j < i :: events[j].id != id
  }

  lemma {:induction false} NoEventNoChange(events: seq<Event>, lo: nat, id: string)
    requires lo <= |events| && forall j | lo <= j < |events| :: events[j].id != id
    ensures LifeOf(events, id) == LifeOf(events[..lo], id)
  {
    if lo == |events| {
      assert events[..lo] == events;
    } else {
      assert events[..|events| - 1][..lo] == events[..lo];
      NoEventNoChange(events[..|events| - 1], lo, id);
    }
  }

  lemma {:induction false} LawfulPrefix(events: seq<Event>, n: nat)
    requires Lawful(events) && n < |events|
    ensures Allowed(LifeOf(events[..n], events[n].id), events[n].action)
  {
    if n < |events| - 1 {
      LawfulPrefix(events[..|events| - 1], n);
      assert events[..|events| - 1][..n] == events[..n];
    }
  }

  /** An item's first event from `lo` on is an opening exactly when the item was
      not open there. */
  lemma FirstEventOpens(events: seq<Event>, lo: nat, i: nat, id: string)
    requires Lawful(events) && FirstFrom(events, lo, i, id)
    ensures Opens(events[i]) <==> !IsOpen(LifeOf(events[..lo], id))
  {
    LawfulPrefix(events, i);
    assert events[..i][..lo] == events[..lo];
    NoEventNoChange(events[..i], lo, id);
  }

  lemma {:induction false} FirstIsSomewhere(events: seq<Event>, lo: nat, hi: nat, id: string) returns (i: nat)
    requires lo <= hi < |events| && events[hi].id == id
    ensures FirstFrom(events, lo, i, id)
    decreases hi - lo
  {
    i := lo;
    if events[lo].id != id {
      i := FirstIsSomewhere(events, lo + 1, hi, id);
    }
  }

  lemma ChangeHasFirst(events: seq<Event>, lo: nat, id: string) returns (i: nat)
    requires lo <= |events| && LifeOf(events, id) != LifeOf(events[..lo], id)
    ensures FirstFrom(events, lo, i, id)
  {
    if forall j | lo <= j < |events| :: events[j].id != id {
      NoEventNoChange(events, lo, id);
    }
    var hi :| lo <= hi < |events| && events[hi].id == id;
    i := FirstIsSomewhere(events, lo, hi, id);
  }

  /** The item's first event committed after the digest was listed is an opening
      whose stamp is earlier than the recorded send. */
  ghost predicate OpenedBehind(events: seq<Event>, d: Digest, last: real, id: string) {
    exists i: nat :: FirstFrom(events, d.seen, i, id) && Opens(events[i]) && events[i].at < last
  }

  /** When a push is debounced, an open item is missing from the day's last digest
      exactly when its opening was committed after that digest was listed and
      stamped before that digest was recorded. */
  lemma DebouncedItemsWereShown(events: seq<Tick>, id: string)
    requires
      var s := Run(START, events);
      s.phase.Checked? && !TransitionSince(s.store.events, s.phase.last) && id in OpenIds(s.store)
    ensures
      var s := Run(START, events);
      var day := s.phase.digest.day;
      && day in s.shown
      && s.store.items[id].life.openedAt < s.phase.last
      && (id !in s.shown[day].ids <==> OpenedBehind(s.store.events, s.shown[day], s.phase.last, id))
  {
    var s := Run(START, events);
    EveryRunKeeps(events);
    var log, d := s.store.events, s.shown[s.phase.digest.day];
    assert LifeIn(s.store, id) == LifeOf(log, id);
    OpeningIsLogged(log, id);
    assert Sees(d, log);
    if id !in d.ids {
      var i := ChangeHasFirst(log, d.seen, id);
      FirstEventOpens(log, d.seen, i, id);
      assert log[i].at < s.phase.last;
    } else if OpenedBehind(log, d, s.phase.last, id) {
      var i: nat :| FirstFrom(log, d.seen, i, id) && Opens(log[i]);
      FirstEventOpens(log, d.seen, i, id);
    }
  }

  // ---- an item opened while a digest is on its way --------------------

  const FIRST := Item("a", "k", "t", None, None)
  const SECOND := Item("b", "k", "t", None, None)

  function OpenRow(item: Item, at: real): Row {
    Row(item, Life(Open, at, None, None, 0), at, None)
  }

  const SECOND_CALL := Pending(CallReconcile(SECOND, true), 3.0)

  /** The second producer reads its clock before the digest is listed. */
  function SentFirst(): seq<Tick> {
    [Tick(1.0, ReadClock(0, CallReconcile(FIRST, true))), Tick(2.0, Commit(0)),
     Tick(3.0, ReadClock(1, CallReconcile(SECOND, true))), Tick(4.0, List("d")), Tick(5.0, ReadLedger)]
  }

  function OpensSecond(): seq<Tick> {
    SentFirst() + [Tick(6.0, Commit(1)), Tick(7.0, Deliver(true)), Tick(8.0, Stamp), Tick(9.0, Record)]
  }

  lemma RunStep(events: seq<Tick>, e: Tick)
    ensures Run(START, events + [e]) == Step(Run(START, events), e)
  {
    assert (events + [e])[..|events|] == events;
  }

  lemma KeepsInk(c: char)
    requires !IsSpace(c)
    ensures Strip([c]) != ""
  {
    assert Lead([c], 0) == 0;
    assert Trail([c], 0, 1) == 1;
  }

  lemma ItemsAreValid()
    ensures Validation(FIRST).None? && Validation(SECOND).None?
  {
    KeepsInk('a');
    KeepsInk('b');
    KeepsInk('k');
    KeepsInk('t');
  }

  const FIRST_DIGEST := Digest("d", {("a", "t")}, {"a"}, 1)

  const FIRST_ROW := OpenRow(FIRST, 1.0)

  const FIRST_EVENT := Event("a", 1.0, Submit, None)

  lemma FirstIsCommitted() returns (s: State)
    ensures s == Run(START, SentFirst()[..3])
    ensures s == State(Store(map["a" := FIRST_ROW], [FIRST_EVENT], []), 3.0, map[1 := SECOND_CALL], Idle, map[], {})
  {
    ItemsAreValid();
    var e0, e1, e2 := SentFirst()[0], SentFirst()[1], SentFirst()[2];
    assert SentFirst()[..3] == (([] + [e0]) + [e1]) + [e2];
    RunStep([], e0);
    RunStep([] + [e0], e1);
    RunStep(([] + [e0]) + [e1], e2);
    var called := map[0 := Pending(CallReconcile(FIRST, true), 1.0)];
    assert called - {0} == map[];
    s := Run(START, SentFirst()[..3]);
  }

  lemma FirstIsOnItsWay() returns (s: State)
    ensures s == Run(START, SentFirst())
    ensures s == State(Store(map["a" := FIRST_ROW], [FIRST_EVENT], []), 5.0, map[1 := SECOND_CALL], Sending(FIRST_DIGEST), map[], {})
  {
    var was := FirstIsCommitted();
    var e3, e4 := SentFirst()[3], SentFirst()[4];
    assert SentFirst() == (SentFirst()[..3] + [e3]) + [e4];
    RunStep(SentFirst()[..3], e3);
    RunStep(SentFirst()[..3] + [e3], e4);
    assert OpenIds(was.store) == {"a"};
    assert FingerprintOf(was.store) == {("a", "t")};
    s := Run(START, SentFirst());
  }

  lemma SecondOpensMeanwhile() returns (s: State)
    ensures s == Run(START, SentFirst() + [Tick(6.0, Commit(1))])
    ensures s.phase == Sending(FIRST_DIGEST) && s.clock == 6.0 && s.pending == map[] && s.shown == map[]
    ensures s.store.ledger == [] && s.store.events == [FIRST_EVENT, Event("b", 3.0, Submit, None)]
    ensures s.store.items == map["a" := FIRST_ROW, "b" := OpenRow(SECOND, 3.0)]
  {
    ItemsAreValid();
    var was := FirstIsOnItsWay();
    RunStep(SentFirst(), Tick(6.0, Commit(1)));
    s := Step(was, Tick(6.0, Commit(1)));
    assert s.store.items == map["a" := FIRST_ROW, "b" := OpenRow(SECOND, 3.0)];
    assert s.pending == was.pending - {1} == map[];
  }

  lemma FirstIsRecorded() returns (s: State)
    ensures s == Run(START, OpensSecond())
    ensures s.phase.Idle? && s.clock == 9.0 && s.shown == map["d" := FIRST_DIGEST]
    ensures s.store.ledger == [Sent("d", {("a", "t")}, 8.0)]
    ensures s.store.items == map["a" := FIRST_ROW, "b" := OpenRow(SECOND, 3.0)]
    ensures s.store.events == [FIRST_EVENT, Event("b", 3.0, Submit, None)]
  {
    var was := SecondOpensMeanwhile();
    var e0, e1, e2, e3 := OpensSecond()[5], OpensSecond()[6], OpensSecond()[7], OpensSecond()[8];
    assert OpensSecond() == (((SentFirst() + [e0]) + [e1]) + [e2]) + [e3];
    RunStep(SentFirst() + [e0], e1);
    RunStep((SentFirst() + [e0]) + [e1], e2);
    RunStep(((SentFirst() + [e0]) + [e1]) + [e2], e3);
    s := Run(START, OpensSecond());
  }

  /** The comment on the debounce says what opened before a send is in its
      digest.  An item whose opening is stamped before the listing and committed
      behind it is in none, and the next push of the day is debounced all the
      same. */
  lemma OpeningDuringASendIsHidden() returns (events: seq<Tick>)
    ensures
      var s := Run(START, events);
      && s.phase.Checked? && !TransitionSince(s.store.events, s.phase.last)
      && "b" in OpenIds(s.store) && s.phase.digest.day in s.shown && "b" !in s.shown[s.phase.digest.day].ids
  {
    var was := FirstIsRecorded();
    var e0, e1 := Tick(10.0, List("d")), Tick(11.0, ReadLedger);
    events := (OpensSecond() + [e0]) + [e1];
    RunStep(OpensSecond(), e0);
    RunStep(OpensSecond() + [e0], e1);
    var one := Step(was, e0);
    assert OpenIds(was.store) == {"a", "b"};
    assert ("b", "t") in FingerprintOf(was.store);
    assert was.store.ledger[..0] == [];
    assert SentOn(was.store.ledger, "d") == {{("a", "t")}};
    assert FingerprintOf(was.store) !in SentOn(was.store.ledger, "d") by {
      assert ("b", "t") !in {("a", "t")};
    }
    assert LastOn(was.store.ledger, "d") == Some(8.0);
    assert one.phase.Listed?;
  }
}
