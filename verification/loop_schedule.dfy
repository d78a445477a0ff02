/** Calendar-anchored research windows: training, validation and backtest periods. */
module LoopSchedule {
  import opened Wrappers
  import opened Calendar

  const MAX_YEAR := 9999

  datatype Date = Date(month: YearMonth, day: int)

  predicate ValidDate(d: Date) {
    ValidMonth(d.month) && d.month.year <= MAX_YEAR && 1 <= d.day <= DaysInMonth(d.month)
  }

  /** The day number of a date. */
  function Ordinal(d: Date): int
    requires ValidMonth(d.month)
  {
    MonthDay(d.month) + d.day - 1
  }

  function FromIndex(index: int): YearMonth {
    YearMonth(index / 12, index % 12 + 1)
  }

  /** `add_months`: offset the anchor's month, clamp the anchor's day; no date past the supported calendar. */
  function AddMonths(anchor: Date, months: int): Option<Date> {
    var m := FromIndex(Index(anchor.month) + months);
    if 1 <= m.year <= MAX_YEAR then
      Some(Date(m, if anchor.day <= DaysInMonth(m) then anchor.day else DaysInMonth(m)))
    else None
  }

  lemma {:induction false} MonthHasDays(m: YearMonth)
    ensures 28 <= DaysInMonth(m) <= 31
  {}

  /** Offsetting one fixed anchor gives valid dates that strictly increase with the offset. */
  lemma {:induction false} OffsetsIncrease(anchor: Date, a: nat, b: nat)
    requires ValidDate(anchor) && a < b && AddMonths(anchor, b).Some?
    ensures AddMonths(anchor, a).Some?
    ensures ValidDate(AddMonths(anchor, a).value) && ValidDate(AddMonths(anchor, b).value)
    ensures Ordinal(AddMonths(anchor, a).value) < Ordinal(AddMonths(anchor, b).value)
  {
    var m, n := FromIndex(Index(anchor.month) + a), FromIndex(Index(anchor.month) + b);
    hide LeapYear, DaysBeforeYear, DaysBeforeMonth;
    MonthHasDays(m);
    MonthHasDays(n);
    assert Index(m) == Index(anchor.month) + a && Index(n) == Index(anchor.month) + b;
    hide DaysInMonth, MonthDay;
    MonthsIncrease(m, n);
    MonthsTile(m);
  }

  datatype Period = Quarterly | HalfYear | Yearly

  function Months(p: Period): nat {
    match p
    case Quarterly => 3
    case HalfYear => 6
    case Yearly => 12
  }

  datatype Training = Training(trainStart: int, trainEnd: int, validationStart: int, validationEnd: int)

  /** Inclusive day numbers. */
  datatype Window = Window(start: int, end: int, training: Option<Training>)

  /** With training, the anchor is the training start, and each fold trains on everything before its validation. */
  datatype Options = Options(
    iterations: int, bucketGiven: bool, backtest: Period, train: bool, trainPeriod: Period, validation: Period,
    anchor: Option<Date>, artifactGiven: bool)

  function Offset(o: Options): nat {
    if o.train then Months(o.trainPeriod) + Months(o.validation) else 0
  }

  /** The only thing checked about the calendar: the end of the last window. */
  function Final(o: Options): Option<Date>
    requires o.anchor.Some?
  {
    AddMonths(o.anchor.value, Offset(o) + o.iterations * Months(o.backtest))
  }

  predicate Accepted(o: Options, today: int) {
    && o.iterations >= 1 && o.bucketGiven && o.anchor.Some? && (o.train || o.artifactGiven)
    && Final(o).Some? && Ordinal(Final(o).value) <= today
  }

  /** Day number of a boundary, a number of months after the anchor. */
  function Boundary(anchor: Date, months: nat): int {
    if AddMonths(anchor, months).Some? then Ordinal(AddMonths(anchor, months).value) else 0
  }

  function WindowAt(o: Options, anchor: Date, i: nat): Window {
    var step := Months(o.backtest);
    var start := Boundary(anchor, Offset(o) + i * step);
    Window(start, Boundary(anchor, Offset(o) + (i + 1) * step) - 1,
      if o.train then
        var validation := Boundary(anchor, Months(o.trainPeriod) + i * step);
        Some(Training(Boundary(anchor, 0), validation - 1, validation, start - 1))
      else None)
  }

  /** The dates of one iteration's window. */
  method OneWindow(o: Options, anchor: Date, i: nat) returns (w: Window)
    requires ValidDate(anchor) && i < o.iterations
    requires AddMonths(anchor, Offset(o) + o.iterations * Months(o.backtest)).Some?
    ensures w == WindowAt(o, anchor, i)
  {
    hide AddMonths, Ordinal, ValidDate;
    WindowDatesExist(o, anchor, i);
    var step, offset := Months(o.backtest), Offset(o);
    var start := AddMonths(anchor, offset + i * step).value;
    var end := AddMonths(anchor, offset + (i + 1) * step).value;
    var training := None;
    if o.train {
      var validation := AddMonths(anchor, Months(o.trainPeriod) + i * step).value;
      training := Some(Training(Ordinal(AddMonths(anchor, 0).value), Ordinal(validation) - 1, Ordinal(validation), Ordinal(start) - 1));
    }
    w := Window(Ordinal(start), Ordinal(end) - 1, training);
  }

  /** `schedule`: refused for its stated reasons only, and otherwise every window's dates exist. */
  method Schedule(o: Options, today: int) returns (r: Result<seq<Window>>)
    requires o.anchor.Some? ==> ValidDate(o.anchor.value)
    ensures r.Success? <==> Accepted(o, today)
    ensures r.Success? ==> |r.value| == o.iterations
    ensures r.Success? ==> forall i :: 0 <= i < |r.value| ==> r.value[i] == WindowAt(o, o.anchor.value, i)
  {
    hide AddMonths, Ordinal, WindowAt, Months, Offset, ValidDate;
    if o.iterations < 1 { return Failure("iterations must be a positive integer"); }
    if !o.bucketGiven { return Failure("a universe bucket is required"); }
    if o.anchor.None? { return Failure("a start is required"); }
    if !o.train && !o.artifactGiven { return Failure("a model artifact is required when training is off"); }
    var anchor, step, offset := o.anchor.value, Months(o.backtest), Offset(o);
    var final := AddMonths(anchor, offset + o.iterations * step);
    if final.None? { return Failure("loop dates exceed the supported calendar"); }
    DateHasMonth(anchor, offset + o.iterations * step);
    if Ordinal(final.value) > today { return Failure("all backtest windows must end before today"); }
    var windows := [];
    for i := 0 to o.iterations
      invariant |windows| == i && forall j :: 0 <= j < i ==> windows[j] == WindowAt(o, anchor, j)
    {
      var window := OneWindow(o, anchor, i);
      windows := windows + [window];
    }
    r := Success(windows);
  }

  lemma {:induction false} DateHasMonth(anchor: Date, months: nat)
    requires ValidDate(anchor)
    ensures AddMonths(anchor, months).Some? ==> ValidMonth(AddMonths(anchor, months).value.month)
  {}

  /** Month offsets of a window never pass the final one. */
  lemma {:induction false} OffsetsInRange(o: Options, i: nat)
    requires i < o.iterations
    ensures Offset(o) + (i + 1) * Months(o.backtest) <= Offset(o) + o.iterations * Months(o.backtest)
    ensures (i + 1) * Months(o.backtest) == i * Months(o.backtest) + Months(o.backtest)
  {}

  /** The one check of the final boundary is enough: no date of any window can overflow. */
  lemma {:induction false} WindowDatesExist(o: Options, anchor: Date, i: nat)
    requires ValidDate(anchor) && i < o.iterations
    requires AddMonths(anchor, Offset(o) + o.iterations * Months(o.backtest)).Some?
    ensures forall k: nat :: k <= Offset(o) + (i + 1) * Months(o.backtest) ==>
              AddMonths(anchor, k).Some? && ValidMonth(AddMonths(anchor, k).value.month)
    ensures Months(o.trainPeriod) + i * Months(o.backtest) <= Offset(o) + (i + 1) * Months(o.backtest) || !o.train
    ensures Offset(o) + i * Months(o.backtest) <= Offset(o) + (i + 1) * Months(o.backtest)
  {
    hide AddMonths, Ordinal, ValidDate;
    OffsetsInRange(o, i);
    var last := Offset(o) + o.iterations * Months(o.backtest);
    forall k: nat | k <= Offset(o) + (i + 1) * Months(o.backtest)
      ensures AddMonths(anchor, k).Some? && ValidMonth(AddMonths(anchor, k).value.month)
    {
      if k < last { OffsetsIncrease(anchor, k, last); }
      DateHasMonth(anchor, k);
    }
  }

  lemma {:induction false} BoundariesIncrease(o: Options, anchor: Date, a: nat, b: nat)
    requires ValidDate(anchor) && AddMonths(anchor, Offset(o) + o.iterations * Months(o.backtest)).Some?
    requires a < b <= Offset(o) + o.iterations * Months(o.backtest)
    ensures Boundary(anchor, a) < Boundary(anchor, b)
  {
    hide AddMonths, Ordinal;
    var last := Offset(o) + o.iterations * Months(o.backtest);
    if b < last { OffsetsIncrease(anchor, b, last); }
    OffsetsIncrease(anchor, a, b);
  }

  /**
   * Every accepted schedule: windows are non-empty and contiguous, consecutive backtests tile time,
   * each backtest starts after its validation, and everything ends before today.
   */
  lemma {:induction false} WindowsTile(o: Options, today: int, i: nat)
    requires Accepted(o, today) && ValidDate(o.anchor.value) && i < o.iterations
    ensures
      var w := WindowAt(o, o.anchor.value, i);
      && w.start <= w.end < today
      && (i + 1 < o.iterations ==> WindowAt(o, o.anchor.value, i + 1).start == w.end + 1)
      && (w.training.Some? <==> o.train)
      && (w.training.Some? ==>
            var t := w.training.value;
            && t.trainStart <= t.trainEnd && t.trainEnd + 1 == t.validationStart
            && t.validationStart <= t.validationEnd && t.validationEnd + 1 == w.start)
  {
    hide Boundary, Ordinal, AddMonths;
    var anchor, step := o.anchor.value, Months(o.backtest);
    var last := Offset(o) + o.iterations * step;
    OffsetsInRange(o, i);
    BoundariesIncrease(o, anchor, Offset(o) + i * step, Offset(o) + (i + 1) * step);
    if Offset(o) + (i + 1) * step < last { BoundariesIncrease(o, anchor, Offset(o) + (i + 1) * step, last); }
    BoundaryIs(anchor, last);
    if o.train {
      BoundariesIncrease(o, anchor, 0, Months(o.trainPeriod) + i * step);
      BoundariesIncrease(o, anchor, Months(o.trainPeriod) + i * step, Offset(o) + i * step);
    }
  }

  // ----------------------------------------------------------------- dates

  /** How many months a period lasts. */
  predicate Lasts(p: Period, months: nat) {
    match p
    case Quarterly => months == 3
    case HalfYear => months == 6
    case Yearly => months == 12
  }

  /** The date so many months after the anchor: its day of the month, or the month's last where it has fewer. */
  predicate IsAfter(anchor: Date, months: int, d: Date) {
    && ValidDate(d)
    && 12 * d.month.year + d.month.month == 12 * anchor.month.year + anchor.month.month + months
    && d.day == (if anchor.day < DaysInMonth(d.month) then anchor.day else DaysInMonth(d.month))
  }

  /** Day `day` is so many months after the anchor; there is none past the year 9999. */
  ghost predicate FallsOn(anchor: Date, months: int, day: int) {
    exists d :: IsAfter(anchor, months, d) && day == Ordinal(d)
  }

  ghost predicate FallsBy(anchor: Date, months: int, today: int) {
    exists d :: IsAfter(anchor, months, d) && Ordinal(d) <= today
  }

  lemma {:induction false} AddedIsAfter(anchor: Date, months: int, d: Date)
    requires ValidDate(anchor)
    ensures AddMonths(anchor, months) == Some(d) <==> IsAfter(anchor, months, d)
  {
    var index := Index(anchor.month) + months;
    assert index == 12 * (index / 12) + index % 12;
    if IsAfter(anchor, months, d) {
      assert index == 12 * d.month.year + (d.month.month - 1);
    }
  }

  lemma {:induction false} BoundaryFalls(anchor: Date, months: nat)
    requires ValidDate(anchor) && AddMonths(anchor, months).Some?
    ensures FallsOn(anchor, months, Boundary(anchor, months))
  {
    hide AddMonths, Ordinal, IsAfter;
    AddedIsAfter(anchor, months, AddMonths(anchor, months).value);
    DateHasMonth(anchor, months);
  }

  /** A schedule is accepted exactly when its settings are complete and its last window ends before today, in this calendar. */
  lemma {:induction false} AcceptedIs(o: Options, today: int, step: nat, train: nat, validation: nat)
    requires o.anchor.Some? ==> ValidDate(o.anchor.value)
    requires Lasts(o.backtest, step) && Lasts(o.trainPeriod, train) && Lasts(o.validation, validation)
    ensures Accepted(o, today) <==>
              && o.iterations >= 1 && o.bucketGiven && (o.train || o.artifactGiven) && o.anchor.Some?
              && FallsBy(o.anchor.value, (if o.train then train + validation else 0) + o.iterations * step, today)
  {
    hide AddMonths, Ordinal, IsAfter;
    if o.anchor.Some? && o.iterations >= 1 {
      var anchor, months := o.anchor.value, (if o.train then train + validation else 0) + o.iterations * step;
      assert Final(o) == AddMonths(anchor, months);
      forall d ensures AddMonths(anchor, months) == Some(d) <==> IsAfter(anchor, months, d) {
        AddedIsAfter(anchor, months, d);
      }
    }
  }

  /**
   * The dates of every accepted window, in months after the anchor: backtests follow one another at
   * the backtest period; with training they start after the training and the validation period, the
   * validation ends where the backtest starts, and training reaches back to the anchor.
   */
  lemma {:induction false} WindowFalls(o: Options, today: int, i: nat, step: nat, train: nat, validation: nat)
    requires Accepted(o, today) && ValidDate(o.anchor.value) && i < o.iterations
    requires Lasts(o.backtest, step) && Lasts(o.trainPeriod, train) && Lasts(o.validation, validation)
    ensures
      var w, anchor := WindowAt(o, o.anchor.value, i), o.anchor.value;
      var offset := if o.train then train + validation else 0;
      && FallsOn(anchor, offset + i * step, w.start) && FallsOn(anchor, offset + (i + 1) * step, w.end + 1)
      && (w.training.Some? <==> o.train)
      && (o.train ==>
            var t := w.training.value;
            && t.trainStart == Ordinal(anchor) && t.trainEnd + 1 == t.validationStart
            && FallsOn(anchor, train + i * step, t.validationStart) && t.validationEnd + 1 == w.start)
  {
    hide AddMonths, Ordinal, IsAfter, FallsOn;
    var anchor := o.anchor.value;
    WindowDatesExist(o, anchor, i);
    BoundaryFalls(anchor, Offset(o) + i * step);
    BoundaryFalls(anchor, Offset(o) + (i + 1) * step);
    if o.train {
      BoundaryFalls(anchor, train + i * step);
      AtAnchor(anchor);
    }
  }

  lemma {:induction false} AtAnchor(anchor: Date)
    requires ValidDate(anchor)
    ensures Boundary(anchor, 0) == Ordinal(anchor)
  {
    hide Ordinal;
    AddedIsAfter(anchor, 0, anchor);
  }

  lemma {:induction false} BoundaryIs(anchor: Date, months: nat)
    requires ValidDate(anchor)
    ensures AddMonths(anchor, months).Some? ==> Boundary(anchor, months) == Ordinal(AddMonths(anchor, months).value)
  {}
}
