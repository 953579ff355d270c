/** The booked days over whole runs of the daemon. */
module DayLoads {
  import opened EventPools
  import opened Events
  import opened EventLaws
  import B = Booking

  function Load(r: Row, day: B.Day): int {
    if r.status == Booked && day in B.DaysOf(r.start, r.finish) then r.capacity else 0
  }

  function LoadOn(day: B.Day): Row -> int { r => Load(r, day) }

  /** What the booked events hold of a day. */
  ghost function DayTotal(rows: map<Tag, Row>, day: B.Day): int { Sum(rows, LoadOn(day)) }

  lemma DaySplit(rows: map<Tag, Row>, day: B.Day, t: Tag)
    requires t in rows
    ensures DayTotal(rows, day) == Load(rows[t], day) + DayTotal(rows - {t}, day)
  {
    SumSplit(rows, LoadOn(day), t);
  }

  /** A request far enough ahead to be a booking. */
  predicate Ahead(r: Request, e: Surroundings) { r.start.Some? && 2 * (r.start.value - e.now) >= B.DAY }

  /** The time series that a request for a booking meets says of every day at least what the booked rows add up to,
      whatever else it counts, and the capacity asked for is not negative and overflows on no day. */
  ghost predicate Reported(s: State, op: Op) {
    op.CreateOp? && Ahead(op.r, op.e) ==>
      && op.r.capacity >= 0
      && forall day ::
           && DayTotal(s.rows, day) <= B.Promised(op.e.series, day)
           && B.Promised(op.e.series, day) + op.r.capacity <= B.MAX32
  }

  ghost predicate ReportedRun(s: State, ops: seq<Op>) {
    ops == [] || (ReportedRun(s, ops[..|ops| - 1]) && Reported(Run(s, ops[..|ops| - 1]), ops[|ops| - 1]))
  }

  ghost predicate NonNegative(rows: map<Tag, Row>) {
    forall t :: t in rows && rows[t].status == Booked ==> rows[t].capacity >= 0
  }

  ghost predicate DaysWithin(s: State) {
    NonNegative(s.rows) && forall day :: DayTotal(s.rows, day) <= B.LIMIT
  }

  lemma {:induction false} DayNonNegative(rows: map<Tag, Row>, day: B.Day)
    requires NonNegative(rows)
    ensures DayTotal(rows, day) >= 0
    decreases |rows|
  {
    if rows != map[] {
      var t :| t in rows;
      DaySplit(rows, day, t);
      DayNonNegative(rows - {t}, day);
    }
  }

  // Replacing a row by one that holds no more of any day.
  lemma ReplacedKeepsDays(s: State, s': State, t: Tag, r: Row)
    requires DaysWithin(s) && t in s.rows && s'.rows == s.rows[t := r]
    requires r.status == Booked ==> r == s.rows[t]
    ensures DaysWithin(s')
  {
    forall day ensures DayTotal(s'.rows, day) <= B.LIMIT {
      DaySplit(s.rows, day, t);
      DaySplit(s'.rows, day, t);
      assert s'.rows - {t} == s.rows - {t};
    }
  }

  lemma RemovedKeepsDays(s: State, s': State, t: Tag)
    requires DaysWithin(s) && s'.rows == s.rows - {t}
    ensures DaysWithin(s')
  {
    forall day ensures DayTotal(s'.rows, day) <= B.LIMIT {
      if t in s.rows { DaySplit(s.rows, day, t); } else { assert s'.rows == s.rows; }
    }
  }

  lemma AddedKeepsDays(s: State, s': State, t: Tag, r: Row)
    requires DaysWithin(s) && t !in s.rows && s'.rows == s.rows[t := r]
    requires r.status == Booked ==> r.capacity >= 0
    requires forall day :: DayTotal(s.rows, day) + Load(r, day) <= B.LIMIT
    ensures DaysWithin(s')
  {
    forall day ensures DayTotal(s'.rows, day) <= B.LIMIT {
      DaySplit(s'.rows, day, t);
      assert s'.rows - {t} == s.rows;
    }
  }

  /** A booking that isFree grants fits on every day. */
  lemma CreateKeepsDays(s: State, u: User, r: Request, e: Surroundings)
    requires DaysWithin(s) && Reported(s, CreateOp(u, r, e))
    ensures DaysWithin(Create(s, u, r, e))
  {
    var out, s' := CreateOutcome(s, u, r, e), Create(s, u, r, e);
    if out in {BookedIt, Started, CreationFailed, Crashed} {
      var row := if out == BookedIt then Row(u.name, r.capacity, r.start.value, r.finish.value, Booked)
                 else NewRow(u, r, e.now);
      assert s'.rows == s.rows[r.tag := row] && r.tag !in s.rows;
      if r.start.Some? { LessThanHalfADay(r.start.value, e.now); }
      assert out == BookedIt ==> Ahead(r, e);
      hide Create, DayTotal, DaysUntil;
      forall day ensures DayTotal(s.rows, day) + Load(row, day) <= B.LIMIT {
        DayNonNegative(s.rows, day);
        if Load(row, day) != 0 {
          var days := B.DaysOf(r.start.value, r.finish.value);
          var i :| 0 <= i < |days| && days[i] == day;
          assert B.Accepts(e.series, days[i], r.capacity);
          var promised := B.Promised(e.series, day);
          assert DayTotal(s.rows, day) <= promised;
          B.AcceptsIff(e.series, day, r.capacity);
        }
      }
      AddedKeepsDays(s, s', r.tag, row);
    }
  }

  lemma {:induction false} VisitKeepsDays(s: State, listed: seq<Tag>, now: B.Time, buildings: Buildings)
    requires DaysWithin(s)
    ensures DaysWithin(Visit(s, listed, now, buildings).0)
    decreases |listed|
  {
    hide DayTotal;
    if listed != [] {
      var t := listed[0];
      if !Due(s, t, now) {
        VisitKeepsDays(s, listed[1..], now, buildings);
      } else if BookingBuilds(s, t, buildings) {
        ReplacedKeepsDays(s, StartBooked(s, t), t, s.rows[t].(status := Running));
        VisitKeepsDays(StartBooked(s, t), listed[1..], now, buildings);
      }
    }
  }

  lemma {:induction false} CloseAllKeepsDays(s: State, listed: seq<Tag>, now: B.Time)
    requires DaysWithin(s)
    ensures DaysWithin(CloseAll(s, listed, now))
    decreases |listed|
  {
    hide DaysWithin;
    if listed != [] {
      RemovedKeepsDays(s, Close(s, listed[0]), listed[0]);
      CloseAllKeepsDays(if Overdue(s, listed[0], now) then Close(s, listed[0]) else s, listed[1..], now);
    }
  }

  lemma SuspendKeepsDays(s: State, u: User, t: Tag, suspend: bool)
    requires DaysWithin(s)
    ensures DaysWithin(Suspend(s, u, t, suspend))
  {
    var s' := Suspend(s, u, t, suspend);
    if s'.rows != s.rows { ReplacedKeepsDays(s, s', t, s.rows[t].(status := if suspend then Suspended else Running)); }
  }

  lemma StepKeepsDays(s: State, op: Op)
    requires DaysWithin(s) && Reported(s, op)
    ensures DaysWithin(Step(s, op))
  {
    hide Create, Suspend, Visit, CloseAll, DaysWithin, Reported;
    match op
    case CreateOp(u, r, e) => CreateKeepsDays(s, u, r, e);
    case SuspendOp(u, t, suspend) => SuspendKeepsDays(s, u, t, suspend);
    case StopOp(u, t) => if Stop(s, u, t) != s { RemovedKeepsDays(s, Stop(s, u, t), t); }
    case VisitOp(listed, now, buildings) => VisitKeepsDays(s, listed, now, buildings);
    case CloseOp(listed, now) => CloseAllKeepsDays(s, listed, now);
  }

  /** Over every run of the daemon, with bookings granted, started, dropped and closed, the booked events never hold
      more than the limit of any day. */
  lemma {:induction false} RunKeepsDays(s: State, ops: seq<Op>)
    requires DaysWithin(s) && ReportedRun(s, ops)
    ensures DaysWithin(Run(s, ops))
  {
    hide DaysWithin, Reported, Step;
    if ops != [] {
      RunKeepsDays(s, ops[..|ops| - 1]);
      StepKeepsDays(Run(s, ops[..|ops| - 1]), ops[|ops| - 1]);
    }
  }
}
