/** New York regular-session arithmetic on instants, in microseconds. */
module Session {
  import opened Calendar
  import opened Wrappers

  const MINUTE: int := 60_000_000

  const SESSION_OPEN: int := 570 * MINUTE

  const SESSION_CLOSE: int := 960 * MINUTE

  /** The UTC offset of the market's time zone at an instant. */
  type Zone = int -> int

  function Local(zone: Zone, ts: int): int {
    ts + zone(ts)
  }

  function LocalDate(zone: Zone, ts: int): int {
    Local(zone, ts) / DAY
  }

  function TimeOfDay(zone: Zone, ts: int): int {
    Local(zone, ts) % DAY
  }

  predicate Regular(zone: Zone, ts: int) {
    SESSION_OPEN <= TimeOfDay(zone, ts) < SESSION_CLOSE
  }

  /** `minutes_until_close`, in microseconds. */
  function UntilClose(zone: Zone, ts: int): int {
    SESSION_CLOSE - TimeOfDay(zone, ts)
  }

  /** `minutes_since_open`, in microseconds. */
  function SinceOpen(zone: Zone, ts: int): int {
    TimeOfDay(zone, ts) - SESSION_OPEN
  }

  /** Clocks change at night, by an hour: within one date's regular session the offset stays put. */
  ghost predicate SteadySessions(zone: Zone) {
    && (forall a, b :: Regular(zone, a) && Regular(zone, b) && LocalDate(zone, a) == LocalDate(zone, b) ==> zone(a) == zone(b))
    && (forall a, b :: zone(a) <= zone(b) + 60 * MINUTE)
  }

  lemma {:induction false} DateAndTime(zone: Zone, ts: int)
    ensures Local(zone, ts) == DAY * LocalDate(zone, ts) + TimeOfDay(zone, ts)
  {}

  /** Within one session, later means closer to the close. */
  lemma {:induction false} CloseApproaches(zone: Zone, a: int, b: int)
    requires SteadySessions(zone) && Regular(zone, a) && Regular(zone, b)
    requires LocalDate(zone, a) == LocalDate(zone, b) && a <= b
    ensures UntilClose(zone, b) <= UntilClose(zone, a)
  {
    assert zone(a) == zone(b);
    DateAndTime(zone, a);
    DateAndTime(zone, b);
  }

  /** Sessions follow each other in time. */
  lemma {:induction false} DatesIncrease(zone: Zone, a: int, b: int)
    requires SteadySessions(zone) && Regular(zone, a) && Regular(zone, b) && a <= b
    ensures LocalDate(zone, a) <= LocalDate(zone, b)
  {
    hide LocalDate, TimeOfDay;
    DateAndTime(zone, a);
    DateAndTime(zone, b);
    assert zone(a) <= zone(b) + 60 * MINUTE;
    assert LocalDate(zone, b) < LocalDate(zone, a) ==> DAY * (LocalDate(zone, b) + 1) <= DAY * LocalDate(zone, a);
  }

  // ------------------------------------------------------------------ grid

  /** An exchange session, as the calendar delivers it. */
  datatype TradingSession = TradingSession(open: int, close: int)

  /** No clock change falls inside the session; it may be empty, or run past local midnight. */
  ghost predicate Steady(zone: Zone, s: TradingSession) {
    forall t :: s.open <= t < s.close ==> zone(t) == zone(s.open)
  }

  /** The instant of local midnight on the day a session opens, at its offset. */
  function SessionMidnight(zone: Zone, s: TradingSession): int {
    s.open - TimeOfDay(zone, s.open)
  }

  predicate Aligned(d: int, step: int)
    requires step > 0
  {
    d % step == 0
  }

  /** A session's interval starts: aligned to clock intervals from the opening day's midnight, not to the open. */
  predicate Scheduled(zone: Zone, s: TradingSession, step: int, t: int)
    requires step > 0
  {
    s.open <= t < s.close && Aligned(Local(zone, t) - DAY * LocalDate(zone, s.open), step)
  }

  /** On the wall clock: inside the session, a whole number of steps after the midnight before its open. */
  lemma {:induction false} ScheduledIs(zone: Zone, s: TradingSession, step: int, t: int)
    requires step > 0 && Steady(zone, s)
    ensures Scheduled(zone, s, step, t) <==>
              s.open <= t < s.close && (t - s.open + (s.open + zone(s.open)) % (24 * 60 * MINUTE)) % step == 0
  {
    if s.open <= t < s.close { ClockIsSteady(zone, s, t); }
  }

  lemma {:induction false} ClockIsSteady(zone: Zone, s: TradingSession, t: int)
    requires Steady(zone, s) && s.open <= t < s.close
    ensures Local(zone, t) - DAY * LocalDate(zone, s.open) == t - SessionMidnight(zone, s) >= 0
  {
    DateAndTime(zone, s.open);
  }

  /** The last of the sessions that schedules an instant names its date. */
  ghost predicate Dates(zone: Zone, sessions: seq<TradingSession>, step: int, t: int, date: int)
    requires step > 0
  {
    exists i :: LastScheduling(zone, sessions, step, t, i) && date == LocalDate(zone, sessions[i].open)
  }

  ghost predicate LastScheduling(zone: Zone, sessions: seq<TradingSession>, step: int, t: int, i: int)
    requires step > 0
  {
    0 <= i < |sessions| && Scheduled(zone, sessions[i], step, t) &&
    forall j :: i < j < |sessions| ==> !Scheduled(zone, sessions[j], step, t)
  }

  /**
   * `scheduled_bars`: refused for a step that is not positive; else exactly the aligned interval starts of
   * every session, each with the opening day of the last session that schedules it.
   */
  method ScheduledBars(zone: Zone, sessions: seq<TradingSession>, step: int) returns (r: Option<map<int, int>>)
    requires forall s :: s in sessions ==> Steady(zone, s)
    ensures r.None? <==> step <= 0
    ensures r.Some? ==> forall t :: t in r.value <==> exists i :: 0 <= i < |sessions| && Scheduled(zone, sessions[i], step, t)
    ensures r.Some? ==> forall t :: t in r.value ==> Dates(zone, sessions, step, t, r.value[t])
  {
    hide LocalDate, Steady, Scheduled;
    if step <= 0 { return None; }
    var grid := map[];
    for n := 0 to |sessions|
      invariant forall t :: t in grid <==> exists i :: 0 <= i < n && Scheduled(zone, sessions[i], step, t)
      invariant forall t :: t in grid ==> Dates(zone, sessions[..n], step, t, grid[t])
    {
      ghost var before := grid;
      assert sessions[n] in sessions;
      grid := ScheduleSession(zone, sessions[n], step, grid);
      forall t | t in grid ensures Dates(zone, sessions[..n + 1], step, t, grid[t]) {
        DatesGrow(zone, sessions, step, t, grid[t], n);
      }
    }
    assert sessions[..|sessions|] == sessions;
    return Some(grid);
  }

  lemma {:induction false} DatesGrow(zone: Zone, sessions: seq<TradingSession>, step: int, t: int, date: int, n: nat)
    requires step > 0 && n < |sessions|
    requires if Scheduled(zone, sessions[n], step, t) then date == LocalDate(zone, sessions[n].open)
             else Dates(zone, sessions[..n], step, t, date)
    ensures Dates(zone, sessions[..n + 1], step, t, date)
  {
    hide LocalDate, Scheduled;
    if Scheduled(zone, sessions[n], step, t) {
      assert LastScheduling(zone, sessions[..n + 1], step, t, n);
    } else {
      var i :| LastScheduling(zone, sessions[..n], step, t, i) && date == LocalDate(zone, sessions[..n][i].open);
      assert LastScheduling(zone, sessions[..n + 1], step, t, i);
    }
  }

  /** Where no session runs past midnight, the date is the instant's own. */
  lemma {:induction false} DatesAreLocal(zone: Zone, sessions: seq<TradingSession>, step: int, t: int, date: int)
    requires step > 0 && Dates(zone, sessions, step, t, date)
    requires forall s :: s in sessions ==> Steady(zone, s) && s.close <= SessionMidnight(zone, s) + DAY
    ensures date == LocalDate(zone, t)
  {
    hide LocalDate, Steady, TimeOfDay;
    var i :| LastScheduling(zone, sessions, step, t, i) && date == LocalDate(zone, sessions[i].open);
    var s := sessions[i];
    assert s in sessions;
    ClockIsSteady(zone, s, t);
    SameDay(zone, t, date, t - SessionMidnight(zone, s));
  }

  lemma {:induction false} SameDay(zone: Zone, t: int, date: int, time: int)
    requires Local(zone, t) == DAY * date + time && 0 <= time < DAY
    ensures LocalDate(zone, t) == date
  {
    QuotientIs(Local(zone, t), DAY, date, time);
  }

  /** One session's intervals, a step at a time from the first aligned one. */
  method ScheduleSession(zone: Zone, s: TradingSession, step: int, before: map<int, int>) returns (grid: map<int, int>)
    requires step > 0 && Steady(zone, s)
    ensures forall t :: t in grid <==> t in before || Scheduled(zone, s, step, t)
    ensures forall t :: t in grid ==> grid[t] == (if Scheduled(zone, s, step, t) then LocalDate(zone, s.open) else before[t])
  {
    hide LocalDate, Local, TimeOfDay, Steady, SessionMidnight, Aligned;
    grid := before;
    var midnight := SessionMidnight(zone, s);
    var slots := (s.open - midnight) / step + (if (s.open - midnight) % step != 0 then 1 else 0);
    FirstSlot(s.open - midnight, step, slots);
    forall t | s.open <= t < s.close ensures Scheduled(zone, s, step, t) <==> Aligned(t - midnight, step) {
      ClockIsSteady(zone, s, t);
    }
    var cursor := midnight + slots * step;
    ghost var n := slots;
    while cursor < s.close
      invariant cursor == midnight + n * step && cursor >= s.open
      invariant forall t :: t in grid <==> t in before || (Scheduled(zone, s, step, t) && t < cursor)
      invariant forall t :: t in grid ==>
                  grid[t] == (if Scheduled(zone, s, step, t) && t < cursor then LocalDate(zone, s.open) else before[t])
      decreases s.close - cursor
    {
      NextSlot(step, n);
      grid := grid[cursor := LocalDate(zone, s.open)];
      n := n + 1;
      cursor := cursor + step;
    }
  }

  lemma {:induction false} FirstSlot(offset: int, step: int, slots: int)
    requires step > 0 && slots == offset / step + (if offset % step != 0 then 1 else 0)
    ensures offset <= slots * step
    ensures forall d :: offset <= d < slots * step ==> !Aligned(d, step)
  {
    assert offset == step * (offset / step) + offset % step;
    forall d | offset <= d < slots * step ensures !Aligned(d, step) {
      QuotientIs(d, step, slots - 1, d - (slots - 1) * step);
    }
  }

  /** Between one slot and the next nothing else is aligned. */
  lemma {:induction false} NextSlot(step: int, n: int)
    requires step > 0
    ensures Aligned(n * step, step) && (n + 1) * step == n * step + step
    ensures forall d :: n * step < d < n * step + step ==> !Aligned(d, step)
  {
    QuotientIs(n * step, step, n, 0);
    forall d | n * step < d < n * step + step ensures !Aligned(d, step) {
      QuotientIs(d, step, n, d - n * step);
    }
  }
}
