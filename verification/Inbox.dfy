/** The adjudication inbox: items, their event log, and the ledger of sends. */
module Inboxes {
  import opened Text

  datatype Item = Item(id: string, kind: string, title: string, payloadRef: Option<string>, hint: Option<string>)

  datatype Status = Open | Resolved

  /** What the event log knows of one item. */
  datatype Life = Life(status: Status, openedAt: real, resolvedAt: Option<real>, note: Option<string>, reopenCount: nat)

  datatype Row = Row(item: Item, life: Life, lastSeenAt: real, resolveSource: Option<string>)

  datatype Action = Submit | Reopen | Resolve

  datatype Event = Event(id: string, at: real, action: Action, note: Option<string>)

  datatype Sent = Sent(day: string, fingerprint: Fingerprint, at: real)

  /** The digest of the open set: identifiers and titles, in no order. */
  type Fingerprint = set<(string, string)>

  datatype Store = Store(items: map<string, Row>, events: seq<Event>, ledger: seq<Sent>)

  const EMPTY := Store(map[], [], [])

  datatype Error = IdRequired | KindRequired | TitleRequired | NotOpen

  function Validation(item: Item): Option<Error> {
    if Strip(item.id) == "" then Some(IdRequired)
    else if Strip(item.kind) == "" then Some(KindRequired)
    else if Strip(item.title) == "" then Some(TitleRequired)
    else None
  }

  // ---- the log and its replay -----------------------------------------

  function Next(life: Option<Life>, e: Event): Option<Life> {
    match (life, e.action)
    case (None, Submit) => Some(Life(Open, e.at, None, None, 0))
    case (Some(l), Reopen) => Some(Life(Open, e.at, None, None, l.reopenCount + 1))
    case (Some(l), Resolve) => Some(Life(Resolved, l.openedAt, Some(e.at), e.note, l.reopenCount))
    case _ => life
  }

  /** The actions an item may take next. */
  predicate Allowed(life: Option<Life>, action: Action) {
    match action
    case Submit => life.None?
    case Reopen => life.Some? && life.value.status.Resolved?
    case Resolve => life.Some? && life.value.status.Open?
  }

  function LifeOf(events: seq<Event>, id: string): Option<Life> {
    if events == [] then None
    else
      var before := LifeOf(events[..|events| - 1], id);
      var e := events[|events| - 1];
      if e.id == id then Next(before, e) else before
  }

  predicate Lawful(events: seq<Event>) {
    events == [] ||
    (Lawful(events[..|events| - 1])
     && Allowed(LifeOf(events[..|events| - 1], events[|events| - 1].id), events[|events| - 1].action))
  }

  /** An item's own events, in order. */
  function EventsOf(events: seq<Event>, id: string): seq<Event> {
    if events == [] then []
    else
      var rest := EventsOf(events[..|events| - 1], id);
      if events[|events| - 1].id == id then rest + [events[|events| - 1]] else rest
  }

  function LifeIn(s: Store, id: string): Option<Life> {
    if id in s.items then Some(s.items[id].life) else None
  }

  /** The table is the replay of the log, and open rows carry no resolution. */
  ghost predicate Consistent(s: Store) {
    && Lawful(s.events)
    && (forall id :: LifeIn(s, id) == LifeOf(s.events, id))
    && (forall id | id in s.items :: s.items[id].item.id == id)
    && (forall id | id in s.items :: s.items[id].life.status.Open? ==> s.items[id].resolveSource.None?)
  }

  // ---- the operations as functions ------------------------------------

  function Put(s: Store, id: string, row: Row): Store {
    s.(items := s.items[id := row])
  }

  function Log(s: Store, e: Event): Store {
    s.(events := s.events + [e])
  }

  function Closed(s: Store, id: string, source: string, note: Option<string>, now: real): Store
    requires id in s.items
  {
    var row := s.items[id];
    Log(Put(s, id, row.(life := row.life.(status := Resolved, resolvedAt := Some(now), note := note), resolveSource := Some(source))),
        Event(id, now, Resolve, note))
  }

  /** One producer truth: is this item pending or not? */
  function Reconciled(s: Store, item: Item, pending: bool, now: real): Store {
    var id := item.id;
    if pending then
      if id !in s.items then
        Log(Put(s, id, Row(item, Life(Open, now, None, None, 0), now, None)), Event(id, now, Submit, None))
      else if s.items[id].life.status.Open? then
        Put(s, id, s.items[id].(item := item, lastSeenAt := now))
      else
        Log(Put(s, id, Row(item, Life(Open, now, None, None, s.items[id].life.reopenCount + 1), now, None)),
            Event(id, now, Reopen, None))
    else if id in s.items && s.items[id].life.status.Open? then Closed(s, id, "producer", None, now)
    else s
  }

  predicate Recorded(ledger: seq<Sent>, day: string, fingerprint: Fingerprint) {
    exists i | 0 <= i < |ledger| :: ledger[i].day == day && ledger[i].fingerprint == fingerprint
  }

  /** INSERT OR IGNORE on the primary key (day, fingerprint). */
  function WithSent(s: Store, day: string, fingerprint: Fingerprint, now: real): Store {
    if Recorded(s.ledger, day, fingerprint) then s else s.(ledger := s.ledger + [Sent(day, fingerprint, now)])
  }

  function OpenIds(s: Store): set<string> {
    set id | id in s.items && s.items[id].life.status.Open?
  }

  function FingerprintOf(s: Store): Fingerprint {
    set id | id in OpenIds(s) :: (id, s.items[id].item.title)
  }

  function SentOn(ledger: seq<Sent>, day: string): set<Fingerprint> {
    if ledger == [] then {}
    else
      var rest := SentOn(ledger[..|ledger| - 1], day);
      if ledger[|ledger| - 1].day == day then rest + {ledger[|ledger| - 1].fingerprint} else rest
  }

  function LastOn(ledger: seq<Sent>, day: string): Option<real> {
    if ledger == [] then None
    else
      var rest := LastOn(ledger[..|ledger| - 1], day);
      var row := ledger[|ledger| - 1];
      if row.day != day then rest
      else if rest.Some? && rest.value > row.at then rest
      else Some(row.at)
  }

  predicate Opens(e: Event) {
    e.action.Submit? || e.action.Reopen?
  }

  predicate TransitionSince(events: seq<Event>, since: real) {
    exists i | 0 <= i < |events| :: Opens(events[i]) && events[i].at >= since
  }

  // ---- the operations by what they change -----------------------------

  predicate OpenIn(s: Store, id: string) {
    id in s.items && s.items[id].life.status.Open?
  }

  /** Every other item, and the ledger of sends, are as they were. */
  ghost predicate OnlyTouches(was: Store, after: Store, id: string) {
    && after.ledger == was.ledger
    && (forall k | k != id :: (k in after.items <==> k in was.items) && (k in was.items ==> after.items[k] == was.items[k]))
  }

  /** The item is closed by someone, and exactly that is logged. */
  predicate ClosedBy(was: Store, after: Store, id: string, source: string, note: Option<string>, now: real) {
    && OpenIn(was, id) && id in after.items
    && after.items[id].item == was.items[id].item && after.items[id].lastSeenAt == was.items[id].lastSeenAt
    && after.items[id].resolveSource == Some(source)
    && after.items[id].life == Life(Resolved, was.items[id].life.openedAt, Some(now), note, was.items[id].life.reopenCount)
    && after.events == was.events + [Event(id, now, Resolve, note)]
  }

  /** What a producer's truth makes of its item: it is open exactly when the truth
      says so, shows what the producer said last, and each change is logged once. */
  ghost predicate TruthHolds(was: Store, after: Store, item: Item, pending: bool, now: real) {
    var id := item.id;
    && OnlyTouches(was, after, id)
    && (OpenIn(after, id) <==> pending)
    && (pending ==> after.items[id].item == item && after.items[id].lastSeenAt == now && after.items[id].resolveSource.None?)
    && (pending && OpenIn(was, id) ==> after.items[id].life == was.items[id].life && after.events == was.events)
    && (pending && id !in was.items ==>
          after.items[id].life == Life(Open, now, None, None, 0) && after.events == was.events + [Event(id, now, Submit, None)])
    && (pending && id in was.items && !OpenIn(was, id) ==>
          && after.items[id].life == Life(Open, now, None, None, was.items[id].life.reopenCount + 1)
          && after.events == was.events + [Event(id, now, Reopen, None)])
    && (!pending && OpenIn(was, id) ==> ClosedBy(was, after, id, "producer", None, now))
    && (!pending && !OpenIn(was, id) ==> after == was)
  }

  lemma ReconcilingKeepsTheTruth(s: Store, item: Item, pending: bool, now: real)
    requires Consistent(s)
    ensures TruthHolds(s, Reconciled(s, item, pending, now), item, pending, now)
  {
  }

  class AdjudicationInbox {
    var items: map<string, Row>
    var events: seq<Event>
    var ledger: seq<Sent>

    constructor ()
      ensures Contents() == EMPTY && Consistent(Contents())
    {
      items, events, ledger := map[], [], [];
    }

    ghost function Contents(): Store
      reads this
    {
      Store(items, events, ledger)
    }

    method Reconcile(item: Item, pending: bool, now: real) returns (r: Result<(), Error>)
      requires Consistent(Contents())
      modifies this
      ensures Consistent(Contents())
      ensures r == if Strip(item.id) == "" then Err(IdRequired)
                   else if Strip(item.kind) == "" then Err(KindRequired)
                   else if Strip(item.title) == "" then Err(TitleRequired)
                   else Ok(())
      ensures Contents() == if r.Ok? then Reconciled(old(Contents()), item, pending, now) else old(Contents())
      ensures r.Ok? ==> TruthHolds(old(Contents()), Contents(), item, pending, now)
    {
      if Validation(item).Some? {
        return Err(Validation(item).value);
      }
      ReconciledIsConsistent(Contents(), item, pending, now);
      ReconcilingKeepsTheTruth(Contents(), item, pending, now);
      if item.id in items && items[item.id].life.status.Open? {
        OpenItemsHaveNoNote(Contents(), item.id);
      }
      Sync(item, pending, now);
      r := Ok(());
    }

    /** The transaction on a valid item. */
    method Sync(item: Item, pending: bool, now: real)
      requires item.id in items && items[item.id].life.status.Open? ==> items[item.id].life.note.None?
      modifies this
      ensures Contents() == Reconciled(old(Contents()), item, pending, now)
    {
      var id := item.id;
      if pending {
        if id !in items {
          items := items[id := Row(item, Life(Open, now, None, None, 0), now, None)];
          events := events + [Event(id, now, Submit, None)];
        } else if items[id].life.status.Open? {
          items := items[id := items[id].(item := item, lastSeenAt := now)];
        } else {
          items := items[id := Row(item, Life(Open, now, None, None, items[id].life.reopenCount + 1), now, None)];
          events := events + [Event(id, now, Reopen, None)];
        }
      } else if id in items && items[id].life.status.Open? {
        var life := items[id].life.(status := Resolved, resolvedAt := Some(now));
        items := items[id := items[id].(life := life, resolveSource := Some("producer"))];
        events := events + [Event(id, now, Resolve, None)];
      }
    }

    method ResolveItem(id: string, source: string, note: Option<string>, now: real) returns (r: Result<(), Error>)
      requires Consistent(Contents())
      modifies this
      ensures Consistent(Contents())
      ensures r.Ok? <==> id in OpenIds(old(Contents()))
      ensures if r.Ok? then id in old(items) && Contents() == Closed(old(Contents()), id, source, note, now)
              else r == Err(NotOpen) && Contents() == old(Contents())
      ensures r.Ok? ==> ClosedBy(old(Contents()), Contents(), id, source, note, now) && OnlyTouches(old(Contents()), Contents(), id)
    {
      if id !in items || !items[id].life.status.Open? {
        return Err(NotOpen);
      }
      ClosedIsConsistent(Contents(), id, source, note, now);
      var life := items[id].life.(status := Resolved, resolvedAt := Some(now), note := note);
      items := items[id := items[id].(life := life, resolveSource := Some(source))];
      events := events + [Event(id, now, Resolve, note)];
      r := Ok(());
    }

    method RecordSent(day: string, fingerprint: Fingerprint, now: real)
      modifies this
      ensures Contents() == WithSent(old(Contents()), day, fingerprint, now)
    {
      if !Recorded(ledger, day, fingerprint) {
        ledger := ledger + [Sent(day, fingerprint, now)];
      }
    }

    method SentDayFingerprints(day: string) returns (sent: set<Fingerprint>)
      ensures sent == SentOn(ledger, day)
    {
      sent := {};
      for i := 0 to |ledger|
        invariant sent == SentOn(ledger[..i], day)
      {
        assert ledger[..i + 1][..i] == ledger[..i];
        if ledger[i].day == day {
          sent := sent + {ledger[i].fingerprint};
        }
      }
      assert ledger[..|ledger|] == ledger;
    }

    method LastSentAt(day: string) returns (at: Option<real>)
      ensures at == LastOn(ledger, day)
      ensures at.Some? ==> exists i | 0 <= i < |ledger| :: ledger[i].day == day && ledger[i].at == at.value
      ensures forall i | 0 <= i < |ledger| :: ledger[i].day == day ==> at.Some? && ledger[i].at <= at.value
    {
      at := None;
      for i := 0 to |ledger|
        invariant at == LastOn(ledger[..i], day)
        invariant at.Some? ==> exists j | 0 <= j < i :: ledger[j].day == day && ledger[j].at == at.value
        invariant forall j | 0 <= j < i :: ledger[j].day == day ==> at.Some? && ledger[j].at <= at.value
      {
        assert ledger[..i + 1][..i] == ledger[..i];
        if ledger[i].day == day && !(at.Some? && at.value > ledger[i].at) {
          at := Some(ledger[i].at);
        }
      }
      assert ledger[..|ledger|] == ledger;
    }

    method HasTransitionSince(since: real) returns (found: bool)
      ensures found == TransitionSince(events, since)
      ensures found <==> exists i | 0 <= i < |events| :: (events[i].action.Submit? || events[i].action.Reopen?) && events[i].at >= since
    {
      for i := 0 to |events|
        invariant forall j | 0 <= j < i :: !(Opens(events[j]) && events[j].at >= since)
      {
        if Opens(events[i]) && events[i].at >= since {
          return true;
        }
      }
      found := false;
    }
  }

  // ---- the table is the replay of the log -----------------------------

  lemma LogExtends(events: seq<Event>, e: Event)
    ensures forall id :: LifeOf(events + [e], id) == if e.id == id then Next(LifeOf(events, id), e) else LifeOf(events, id)
    ensures Lawful(events + [e]) <==> Lawful(events) && Allowed(LifeOf(events, e.id), e.action)
  {
    assert (events + [e])[..|events|] == events;
  }

  lemma LogKeepsConsistency(s: Store, id: string, row: Row, e: Event)
    requires Consistent(s) && e.id == id && Allowed(LifeIn(s, id), e.action)
    requires Next(LifeIn(s, id), e) == Some(row.life) && row.item.id == id
    requires row.life.status.Open? ==> row.resolveSource.None?
    ensures Consistent(Log(Put(s, id, row), e))
  {
    LogExtends(s.events, e);
  }

  lemma {:induction false} OpenRowsCarryNoNote(events: seq<Event>, id: string)
    requires Lawful(events)
    ensures LifeOf(events, id).Some? && LifeOf(events, id).value.status.Open? ==>
              LifeOf(events, id).value.note.None? && LifeOf(events, id).value.resolvedAt.None?
  {
    if events != [] {
      OpenRowsCarryNoNote(events[..|events| - 1], id);
    }
  }

  lemma OpenItemsHaveNoNote(s: Store, id: string)
    requires Consistent(s) && id in s.items && s.items[id].life.status.Open?
    ensures s.items[id].life.note.None?
  {
    assert LifeIn(s, id) == LifeOf(s.events, id);
    OpenRowsCarryNoNote(s.events, id);
  }

  lemma ReconciledIsConsistent(s: Store, item: Item, pending: bool, now: real)
    requires Consistent(s)
    ensures Consistent(Reconciled(s, item, pending, now))
  {
    var id := item.id;
    if pending {
      if id !in s.items {
        LogKeepsConsistency(s, id, Row(item, Life(Open, now, None, None, 0), now, None), Event(id, now, Submit, None));
      } else if s.items[id].life.status.Resolved? {
        var life := Life(Open, now, None, None, s.items[id].life.reopenCount + 1);
        LogKeepsConsistency(s, id, Row(item, life, now, None), Event(id, now, Reopen, None));
      } else {
        var t := Reconciled(s, item, pending, now);
        assert forall k :: LifeIn(t, k) == LifeIn(s, k);
      }
    } else if id in s.items && s.items[id].life.status.Open? {
      ClosedIsConsistent(s, id, "producer", None, now);
    }
  }

  lemma ClosedIsConsistent(s: Store, id: string, source: string, note: Option<string>, now: real)
    requires Consistent(s) && id in s.items && s.items[id].life.status.Open?
    ensures Consistent(Closed(s, id, source, note, now))
  {
    var row := s.items[id];
    var closed := row.(life := row.life.(status := Resolved, resolvedAt := Some(now), note := note), resolveSource := Some(source));
    assert LifeIn(s, id) == Some(row.life);
    LogKeepsConsistency(s, id, closed, Event(id, now, Resolve, note));
  }

  /** submit (resolve reopen)* [resolve], and what it says about the row. */
  ghost predicate Spells(acts: seq<Event>, life: Option<Life>) {
    && (forall i | 0 <= i < |acts| ::
          acts[i].action == if i == 0 then Submit else if i % 2 == 1 then Resolve else Reopen)
    && (life.None? <==> acts == [])
    && (life.Some? ==>
          && (life.value.status.Open? <==> |acts| % 2 == 1)
          && life.value.reopenCount == (|acts| - 1) / 2
          && life.value.openedAt == acts[2 * life.value.reopenCount].at
          && life.value.resolvedAt == (if |acts| % 2 == 1 then None else Some(acts[|acts| - 1].at))
          && life.value.note == (if |acts| % 2 == 1 then None else acts[|acts| - 1].note))
  }

  lemma {:induction false} LawfulLogsSpellLives(events: seq<Event>, id: string)
    requires Lawful(events)
    ensures Spells(EventsOf(events, id), LifeOf(events, id))
  {
    if events != [] {
      var front, e := events[..|events| - 1], events[|events| - 1];
      LawfulLogsSpellLives(front, id);
      if e.id == id {
        SpellsExtends(EventsOf(front, id), LifeOf(front, id), e);
      }
    }
  }

  lemma SpellsExtends(acts: seq<Event>, life: Option<Life>, e: Event)
    requires Spells(acts, life) && Allowed(life, e.action)
    ensures Spells(acts + [e], Next(life, e))
  {
  }

  /** Any item, in any consistent store: its events are submit, then resolve and
      reopen in turn, and its row says what they say. */
  lemma TableIsReplay(s: Store, id: string)
    requires Consistent(s)
    ensures Spells(EventsOf(s.events, id), LifeIn(s, id))
  {
    LawfulLogsSpellLives(s.events, id);
    assert LifeIn(s, id) == LifeOf(s.events, id);
  }

  /** A replay of the same truth, whatever its content and time, adds no event
      and leaves the item's life alone. */
  lemma ReplaysAddNoEvent(s: Store, item: Item, again: Item, pending: bool, now: real, later: real)
    requires item.id == again.id
    ensures
      var once := Reconciled(s, item, pending, now);
      var twice := Reconciled(once, again, pending, later);
      && twice.events == once.events && twice.ledger == once.ledger
      && (forall id :: LifeIn(twice, id) == LifeIn(once, id))
  {
  }

  // ---- every run ------------------------------------------------------

  datatype Call =
    | CallReconcile(item: Item, pending: bool)
    | CallResolve(id: string, source: string, note: Option<string>)

  function Called(s: Store, c: Call, now: real): Store {
    match c
    case CallReconcile(item, pending) => if Validation(item).Some? then s else Reconciled(s, item, pending, now)
    case CallResolve(id, source, note) => if id in OpenIds(s) then Closed(s, id, source, note, now) else s
  }

  lemma ClosingCloses(s: Store, id: string, source: string, note: Option<string>, now: real)
    requires OpenIn(s, id)
    ensures ClosedBy(s, Closed(s, id, source, note, now), id, source, note, now)
    ensures OnlyTouches(s, Closed(s, id, source, note, now), id)
  {
  }

  /** A call does what its truth or its owner says, or nothing. */
  lemma CallsDoWhatTheySay(s: Store, c: Call, now: real)
    requires Consistent(s)
    ensures
      var after := Called(s, c, now);
      match c
      case CallReconcile(item, pending) =>
        if Strip(item.id) != "" && Strip(item.kind) != "" && Strip(item.title) != "" then TruthHolds(s, after, item, pending, now) else after == s
      case CallResolve(id, source, note) =>
        if OpenIn(s, id) then ClosedBy(s, after, id, source, note, now) && OnlyTouches(s, after, id) else after == s
  {
    match c
    case CallReconcile(item, pending) => ReconcilingKeepsTheTruth(s, item, pending, now);
    case CallResolve(id, source, note) =>
      if OpenIn(s, id) {
        ClosingCloses(s, id, source, note, now);
      }
  }

  lemma CalledIsConsistent(s: Store, c: Call, now: real)
    requires Consistent(s)
    ensures Consistent(Called(s, c, now))
  {
    match c {
      case CallReconcile(item, pending) => ReconciledIsConsistent(s, item, pending, now);
      case CallResolve(id, source, note) =>
        if id in OpenIds(s) {
          ClosedIsConsistent(s, id, source, note, now);
        }
    }
  }

  function Calls(s: Store, calls: seq<(Call, real)>): Store {
    if calls == [] then s
    else Called(Calls(s, calls[..|calls| - 1]), calls[|calls| - 1].0, calls[|calls| - 1].1)
  }

  /** Over every run, at whatever clock readings. */
  lemma {:induction false} EveryRunIsReplay(calls: seq<(Call, real)>)
    ensures Consistent(Calls(EMPTY, calls))
    ensures forall id :: Spells(EventsOf(Calls(EMPTY, calls).events, id), LifeIn(Calls(EMPTY, calls), id))
  {
    if calls != [] {
      EveryRunIsReplay(calls[..|calls| - 1]);
      CalledIsConsistent(Calls(EMPTY, calls[..|calls| - 1]), calls[|calls| - 1].0, calls[|calls| - 1].1);
    }
    var s := Calls(EMPTY, calls);
    forall id ensures Spells(EventsOf(s.events, id), LifeIn(s, id)) {
      TableIsReplay(s, id);
    }
  }
}
