/** Daily capture slots: the ingest deadline of the consumer and the calendars of
    its poller. */
module Slots {
  import opened Text

  const FLOOR := 900.0
  const MARGIN := 60.0
  const DAY := 86400.0
  const WINDOW: nat := 30

  /** A time of day. */
  datatype Slot = Slot(hour: nat, minute: nat)

  predicate IsTime(s: Slot) {
    s.hour < 24 && s.minute < 60
  }

  const EXPECTED_TIMES := [Slot(8, 45), Slot(12, 20), Slot(14, 0), Slot(14, 40), Slot(18, 0), Slot(20, 20)]

  predicate AreTimes(slots: seq<Slot>) {
    forall i | 0 <= i < |slots| :: IsTime(slots[i])
  }

  function MinuteOf(s: Slot): nat {
    s.hour * 60 + s.minute
  }

  // ---- the deadline ---------------------------------------------------

  /** An instant, in seconds since some midnight, at which a slot falls. */
  predicate FallsAt(s: Slot, day: int, t: real) {
    t == (s.hour * 3600 + s.minute * 60) as real + day as real * 86400.0
  }

  /** The slot's time today, or tomorrow when that is not after now. */
  function Anchor(s: Slot, now: real): real {
    var today := (MinuteOf(s) * 60) as real;
    if today <= now then today + DAY else today
  }

  function Max(a: real, b: real): real {
    if a >= b then a else b
  }

  function Min(a: real, b: real): real {
    if a <= b then a else b
  }

  /** The earliest instant after now at which any slot falls. */
  ghost predicate IsNext(slots: seq<Slot>, now: real, next: real) {
    && next > now
    && (exists i, day: int | 0 <= i < |slots| :: FallsAt(slots[i], day, next))
    && (forall i, day: int, t | 0 <= i < |slots| && FallsAt(slots[i], day, t) && t > now :: next <= t)
  }

  /** The budget is never above the configured one.  It is 900 seconds or less,
      or ends a minute before the next slot, and it is no shorter than that. */
  method EffectiveDeadline(configured: real, slots: seq<Slot>, now: real) returns (budget: real, ghost next: real)
    requires AreTimes(slots) && 0.0 <= now < DAY
    ensures slots == [] ==> budget == configured
    ensures slots != [] ==> IsNext(slots, now, next) && (budget <= 900.0 || now + budget <= next - 60.0)
    ensures budget <= configured
    ensures slots == [] || configured <= 900.0 || now + configured <= next - 60.0 ==> budget == configured
    ensures slots != [] && configured > 900.0 && now + configured > next - 60.0 ==>
              budget == if now + 900.0 >= next - 60.0 then 900.0 else next - 60.0 - now
  {
    next := 0.0;
    if slots == [] {
      return configured, next;
    }
    var anchors := [];
    for i := 0 to |slots|
      invariant |anchors| == i && forall j | 0 <= j < i :: anchors[j] == Anchor(slots[j], now)
    {
      var candidate := (MinuteOf(slots[i]) * 60) as real;
      if candidate <= now {
        candidate := candidate + DAY;
      }
      anchors := anchors + [candidate];
    }
    var least, at := anchors[0], 0;
    for i := 1 to |anchors|
      invariant 0 <= at < |anchors| && least == anchors[at] && forall j | 0 <= j < i :: least <= anchors[j]
    {
      if anchors[i] < least {
        least, at := anchors[i], i;
      }
    }
    next := least;
    LeastAnchorIsNext(slots, now, at);
    budget := Min(configured, Max(least - now - MARGIN, FLOOR));
  }

  lemma AnchorIsNext(s: Slot, now: real, day: int, t: real)
    requires IsTime(s) && 0.0 <= now < DAY && FallsAt(s, day, t) && t > now
    ensures now < Anchor(s, now) <= t
    ensures FallsAt(s, if Anchor(s, now) == (MinuteOf(s) * 60) as real then 0 else 1, Anchor(s, now))
  {
    var today := (MinuteOf(s) * 60) as real;
    assert MinuteOf(s) * 60 < 86400;
    assert day >= 1 ==> day as real >= 1.0;
    assert day <= -1 ==> day as real <= -1.0;
  }

  lemma LeastAnchorIsNext(slots: seq<Slot>, now: real, at: nat)
    requires AreTimes(slots) && 0.0 <= now < DAY && at < |slots|
    requires forall j | 0 <= j < |slots| :: Anchor(slots[at], now) <= Anchor(slots[j], now)
    ensures IsNext(slots, now, Anchor(slots[at], now))
  {
    var next := Anchor(slots[at], now);
    assert FallsAt(slots[at], 1, (MinuteOf(slots[at]) * 60) as real + DAY);
    AnchorIsNext(slots[at], now, 1, (MinuteOf(slots[at]) * 60) as real + DAY);
    forall i, day: int, t | 0 <= i < |slots| && FallsAt(slots[i], day, t) && t > now ensures next <= t {
      AnchorIsNext(slots[i], now, day, t);
    }
  }

  // ---- the poller's calendars -----------------------------------------

  /** Every minute from one to another, both included, of an hour of each day. */
  datatype Calendar = Calendar(hour: nat, first: nat, last: nat)

  /** The minutes of a day at which an expression fires; hour 24 never comes. */
  predicate Fires(c: Calendar, t: nat) {
    c.hour < 24 && t / 60 == c.hour && c.first <= t % 60 <= c.last
  }

  function CalendarsOf(s: Slot): seq<Calendar> {
    if s.minute + WINDOW >= 60 then [Calendar(s.hour, s.minute, 59), Calendar(s.hour + 1, 0, s.minute + WINDOW - 60)]
    else [Calendar(s.hour, s.minute, s.minute + WINDOW)]
  }

  function AllCalendars(slots: seq<Slot>): seq<Calendar> {
    if slots == [] then [] else AllCalendars(slots[..|slots| - 1]) + CalendarsOf(slots[|slots| - 1])
  }

  method PollerTimerCalendars(slots: seq<Slot>) returns (calendars: seq<Calendar>)
    ensures calendars == AllCalendars(slots)
  {
    calendars := [];
    for i := 0 to |slots|
      invariant calendars == AllCalendars(slots[..i])
    {
      assert slots[..i + 1][..i] == slots[..i];
      var end := slots[i].minute + WINDOW;
      if end >= 60 {
        calendars := calendars + [Calendar(slots[i].hour, slots[i].minute, 59)];
        calendars := calendars + [Calendar(slots[i].hour + 1, 0, end - 60)];
      } else {
        calendars := calendars + [Calendar(slots[i].hour, slots[i].minute, end)];
      }
    }
    assert slots[..|slots|] == slots;
  }

  predicate AnyFires(calendars: seq<Calendar>, t: nat) {
    exists i | 0 <= i < |calendars| :: Fires(calendars[i], t)
  }

  predicate InWindow(s: Slot, t: nat) {
    MinuteOf(s) <= t <= MinuteOf(s) + WINDOW
  }

  lemma SlotFires(s: Slot, t: nat)
    requires IsTime(s) && t < 1440
    ensures AnyFires(CalendarsOf(s), t) <==> InWindow(s, t)
  {
    var c := CalendarsOf(s);
    assert t == t / 60 * 60 + t % 60;
    if s.minute + WINDOW >= 60 {
      assert AnyFires(c, t) <==> Fires(c[0], t) || Fires(c[1], t) by {
        assert c[0] == c[0] && c[1] == c[1];
      }
    } else {
      assert AnyFires(c, t) <==> Fires(c[0], t);
    }
  }

  lemma FiresJoin(a: seq<Calendar>, b: seq<Calendar>, t: nat)
    ensures AnyFires(a + b, t) <==> AnyFires(a, t) || AnyFires(b, t)
  {
    if AnyFires(a, t) {
      var i :| 0 <= i < |a| && Fires(a[i], t);
      assert (a + b)[i] == a[i];
    }
    if AnyFires(b, t) {
      var i :| 0 <= i < |b| && Fires(b[i], t);
      assert (a + b)[|a| + i] == b[i];
    }
  }

  /** The rendered calendars fire at a minute of the day exactly when it is one of
      the 31 minutes from some slot on. */
  lemma {:induction false} CalendarsCoverTheWindows(slots: seq<Slot>, t: nat)
    requires AreTimes(slots) && t < 1440
    ensures AnyFires(AllCalendars(slots), t) <==> exists i | 0 <= i < |slots| :: InWindow(slots[i], t)
  {
    if slots != [] {
      var front, s := slots[..|slots| - 1], slots[|slots| - 1];
      CalendarsCoverTheWindows(front, t);
      SlotFires(s, t);
      FiresJoin(AllCalendars(front), CalendarsOf(s), t);
      if i :| 0 <= i < |slots| && InWindow(slots[i], t) {
        assert i == |slots| - 1 || front[i] == slots[i];
      }
    }
  }

  /** A slot gets all of its 31 minutes, in valid expressions, exactly when the
      window ends before midnight. */
  lemma WindowsEndBeforeMidnight(s: Slot)
    requires IsTime(s)
    ensures (forall i | 0 <= i < |CalendarsOf(s)| :: CalendarsOf(s)[i].hour < 24) <==> MinuteOf(s) + WINDOW < 1440
  {
    var c := CalendarsOf(s);
    if s.minute + WINDOW >= 60 {
      assert c[1].hour == s.hour + 1;
    }
  }

  /** So the poller of the rendered timer runs at 8:45, 12:20, 14:00, 14:40, 18:00
      and 20:20 and in the 30 minutes after each, and at no other time. */
  lemma PollerRunsInTheWindows(t: nat)
    requires t < 1440
    ensures AnyFires(AllCalendars(EXPECTED_TIMES), t) <==>
              || 525 <= t <= 555 || 740 <= t <= 770 || 840 <= t <= 870
              || 880 <= t <= 910 || 1080 <= t <= 1110 || 1220 <= t <= 1250
    ensures forall i | 0 <= i < |EXPECTED_TIMES| :: MinuteOf(EXPECTED_TIMES[i]) + WINDOW < 1440
  {
    var e := EXPECTED_TIMES;
    CalendarsCoverTheWindows(e, t);
    assert InWindow(e[0], t) || InWindow(e[1], t) || InWindow(e[2], t) || InWindow(e[3], t) || InWindow(e[4], t) || InWindow(e[5], t)
      <==> exists i | 0 <= i < |e| :: InWindow(e[i], t);
  }
}
