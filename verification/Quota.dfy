/** The quota of a restricted user: checkUserQuota looks before, not after, so the bound is twice the quota. */
module Quota {
  import opened EventPools
  import opened Events
  import opened EventLaws
  import B = Booking

  const BOUND: int := 2 * NP_USER_MAX_LABS

  /** What the bound needs of a user's own rows. */
  ghost predicate NonNegative(rows: map<Tag, Row>, user: UserName) {
    forall t :: t in rows ==> Share(rows[t], user) >= 0
  }

  /** A request of `user` is a restricted one, for at least `lowest`; other users may ask for anything. */
  ghost predicate Proper(op: Op, user: UserName, lowest: int) {
    op.CreateOp? && op.u.name == user ==> op.u.np && op.r.capacity >= lowest
  }

  ghost predicate AllProper(ops: seq<Op>, user: UserName, lowest: int) {
    forall i :: 0 <= i < |ops| ==> Proper(ops[i], user, lowest)
  }

  /** The user's own rows are not negative and hold no more than `bound`. */
  ghost predicate Holds(s: State, user: UserName, bound: int) {
    NonNegative(s.rows, user) && Total(s.rows, user) <= bound
  }

  ghost predicate Within(s: State, user: UserName) { Holds(s, user, BOUND) }

  lemma {:induction false} TotalNonNegative(rows: map<Tag, Row>, user: UserName)
    requires NonNegative(rows, user)
    ensures Total(rows, user) >= 0
    decreases |rows|
  {
    if rows != map[] {
      var t :| t in rows;
      TotalSplit(rows, user, t);
      TotalNonNegative(rows - {t}, user);
    } else {
      TotalOfNone(user);
    }
  }

  lemma TotalWith(rows: map<Tag, Row>, user: UserName, t: Tag, r: Row)
    requires t !in rows
    ensures Total(rows[t := r], user) == Total(rows, user) + Share(r, user)
  {
    TotalSplit(rows[t := r], user, t);
    assert rows[t := r] - {t} == rows;
  }

  lemma TotalReplaced(rows: map<Tag, Row>, user: UserName, t: Tag, status: Status)
    requires t in rows
    ensures Total(rows[t := rows[t].(status := status)], user) == Total(rows, user)
  {
    var after := rows[t := rows[t].(status := status)];
    TotalSplit(rows, user, t);
    TotalSplit(after, user, t);
    assert after - {t} == rows - {t};
  }

  /** Creating, at once or by booking, is checked against what is held before. */
  lemma CreateKeepsWithin(s: State, user: UserName, u: User, r: Request, e: Surroundings)
    requires Within(s, user) && Proper(CreateOp(u, r, e), user, 0)
    ensures Within(Create(s, u, r, e), user)
  {
    var out := CreateOutcome(s, u, r, e);
    if out in {BookedIt, Started, CreationFailed, Crashed} {
      var row := if out == BookedIt then Row(u.name, r.capacity, r.start.value, r.finish.value, Booked)
                 else NewRow(u, r, e.now);
      assert Create(s, u, r, e).rows == s.rows[r.tag := row];
      assert r.tag !in s.rows && QuotaLeft(s.rows, u);
      TotalNonNegative(s.rows, user);
      TotalWith(s.rows, user, r.tag, row);
      assert row.capacity <= NP_USER_MAX_LABS || !u.np;
      assert row.createdBy == u.name;
    }
  }

  lemma SuspendKeepsHolds(s: State, user: UserName, bound: int, u: User, t: Tag, suspend: bool)
    requires Holds(s, user, bound)
    ensures Holds(Suspend(s, u, t, suspend), user, bound)
  {
    if t in s.rows {
      TotalReplaced(s.rows, user, t, Suspended);
      TotalReplaced(s.rows, user, t, Running);
    }
  }

  lemma RemoveKeepsHolds(s: State, user: UserName, bound: int, t: Tag)
    requires Holds(s, user, bound) && t in s.rows
    ensures NonNegative(s.rows - {t}, user) && Total(s.rows - {t}, user) <= bound
  {
    TotalSplit(s.rows, user, t);
  }

  lemma CloseKeepsHolds(s: State, user: UserName, bound: int, t: Tag)
    requires Holds(s, user, bound)
    ensures Holds(Close(s, t), user, bound)
  {
    if t in s.rows { RemoveKeepsHolds(s, user, bound, t); } else { assert s.rows - {t} == s.rows; }
  }

  lemma {:induction false} VisitKeepsHolds(s: State, user: UserName, bound: int, listed: seq<Tag>, now: B.Time,
                                           buildings: Buildings)
    requires Holds(s, user, bound)
    ensures Holds(Visit(s, listed, now, buildings).0, user, bound)
    decreases |listed|
  {
    hide Total;
    if listed != [] {
      if !Due(s, listed[0], now) {
        VisitKeepsHolds(s, user, bound, listed[1..], now, buildings);
      } else if BookingBuilds(s, listed[0], buildings) {
        TotalReplaced(s.rows, user, listed[0], Running);
        VisitKeepsHolds(StartBooked(s, listed[0]), user, bound, listed[1..], now, buildings);
      }
    }
  }

  lemma {:induction false} CloseAllKeepsHolds(s: State, user: UserName, bound: int, listed: seq<Tag>, now: B.Time)
    requires Holds(s, user, bound)
    ensures Holds(CloseAll(s, listed, now), user, bound)
    decreases |listed|
  {
    hide Close, Holds;
    if listed != [] {
      CloseKeepsHolds(s, user, bound, listed[0]);
      CloseAllKeepsHolds(if Overdue(s, listed[0], now) then Close(s, listed[0]) else s, user, bound, listed[1..], now);
    }
  }

  /** Only creating can add to what a user holds. */
  lemma OtherStepKeepsHolds(s: State, user: UserName, bound: int, op: Op)
    requires Holds(s, user, bound) && !op.CreateOp?
    ensures Holds(Step(s, op), user, bound)
  {
    hide Create, Suspend, Visit, CloseAll, Close, Total;
    match op
    case SuspendOp(u, t, suspend) => SuspendKeepsHolds(s, user, bound, u, t, suspend);
    case StopOp(u, t) =>
      CloseKeepsHolds(s, user, bound, t);
      if StopOutcome(s, u, t) == Dropped { RemoveKeepsHolds(s, user, bound, t); }
    case VisitOp(listed, now, buildings) => VisitKeepsHolds(s, user, bound, listed, now, buildings);
    case CloseOp(listed, now) => CloseAllKeepsHolds(s, user, bound, listed, now);
  }

  lemma StepKeepsWithin(s: State, user: UserName, op: Op)
    requires Within(s, user) && Proper(op, user, 0)
    ensures Within(Step(s, op), user)
  {
    hide Create, Holds;
    if op.CreateOp? {
      CreateKeepsWithin(s, user, op.u, op.r, op.e);
    } else {
      OtherStepKeepsHolds(s, user, BOUND, op);
    }
  }

  /** Over every run, the events of a restricted user that are not closed never hold more than twice the quota, if
      the user never asks for less than nothing; what others ask for does not matter. */
  lemma {:induction false} RunKeepsWithin(s: State, user: UserName, ops: seq<Op>)
    requires Within(s, user) && AllProper(ops, user, 0)
    ensures Within(Run(s, ops), user)
  {
    hide Within, Step, Proper;
    if ops != [] {
      assert Proper(ops[|ops| - 1], user, 0);
      RunKeepsWithin(s, user, ops[..|ops| - 1]);
      StepKeepsWithin(Run(s, ops[..|ops| - 1]), user, ops[|ops| - 1]);
    }
  }

  // ----- The bound cannot be improved, and needs its condition -----

  /** Every run from an empty daemon keeps the bound for a restricted user who asks for at least `lowest`. */
  ghost predicate QuotaHolds(lowest: int) {
    forall user, ops :: AllProper(ops, user, lowest) ==> Total(Run(Nothing(), ops).rows, user) <= BOUND
  }

  // Member "m" makes one booking more.
  lemma BookMore(ops: seq<Op>, s: State, tag: Tag, capacity: int) returns (more: seq<Op>, t: State)
    requires Run(Nothing(), ops) == s && AllProper(ops, "m", -1)
    requires !s.crashed && tag !in s.rows && -B.MAX32 <= Total(s.rows, "m") <= NP_USER_MAX_LABS
    requires -1 <= capacity <= NP_USER_MAX_LABS
    ensures Run(Nothing(), more) == t && AllProper(more, "m", -1)
    ensures AllProper(ops, "m", 0) && capacity >= 0 ==> AllProper(more, "m", 0)
    ensures t == s.(rows := s.rows[tag := BookedRow("m", capacity)])
    ensures Total(t.rows, "m") == Total(s.rows, "m") + capacity
  {
    more, t := ops + [Book("m", tag, capacity)], s.(rows := s.rows[tag := BookedRow("m", capacity)]);
    RunStep(Nothing(), ops, Book("m", tag, capacity));
    BookWrites(s, "m", tag, capacity);
    TotalWith(s.rows, "m", tag, BookedRow("m", capacity));
  }

  /** From an empty daemon, two bookings take a member to the bound. */
  lemma BoundIsReached() returns (ops: seq<Op>)
    ensures AllProper(ops, "m", 0) && Total(Run(Nothing(), ops).rows, "m") == BOUND
  {
    TotalOfNone("m");
    assert Run(Nothing(), []) == Nothing();
    hide Run, Total;
    var s;
    ops, s := BookMore([], Nothing(), "aa", NP_USER_MAX_LABS);
    ops, s := BookMore(ops, s, "bb", NP_USER_MAX_LABS);
  }

  /** A booking of -1 machine makes room for bookings of 40, 1 and 40; dropping it then leaves 81. */
  lemma NegativeBookingMakesRoom() returns (ops: seq<Op>)
    ensures AllProper(ops, "m", -1) && Total(Run(Nothing(), ops).rows, "m") == BOUND + 1
  {
    TotalOfNone("m");
    assert Run(Nothing(), []) == Nothing();
    hide Run, Total, AllProper;
    var s;
    assert AllProper([], "m", -1) by { NoneProper(); }
    ops, s := BookMore([], Nothing(), "nn", -1);
    ops, s := BookMore(ops, s, "aa", 40);
    ops, s := BookMore(ops, s, "bb", 1);
    ops, s := BookMore(ops, s, "cc", 40);
    ops := DropMore(ops, s, "nn");
  }

  lemma NoneProper()
    ensures AllProper([], "m", -1)
  {
  }

  // Member "m" drops a booking of her own.
  lemma DropMore(ops: seq<Op>, s: State, tag: Tag) returns (more: seq<Op>)
    requires Run(Nothing(), ops) == s && AllProper(ops, "m", -1)
    requires !s.crashed && tag in s.rows && IsBooking(s.rows[tag], "m") && ValidTag(tag)
    ensures AllProper(more, "m", -1)
    ensures Total(Run(Nothing(), more).rows, "m") == Total(s.rows, "m") - s.rows[tag].capacity
  {
    more := ops + [StopOp(User("m", true), tag)];
    RunStep(Nothing(), ops, StopOp(User("m", true), tag));
    DropOwn(s, tag);
    TotalSplit(s.rows, "m", tag);
  }

  lemma DropOwn(s: State, t: Tag)
    requires !s.crashed && t in s.rows && IsBooking(s.rows[t], "m") && ValidTag(t)
    ensures Step(s, StopOp(User("m", true), t)) == s.(rows := s.rows - {t})
  {
  }

  /** The bound holds in all runs exactly if negative capacities are kept out. */
  lemma QuotaHoldsIff(lowest: int)
    ensures QuotaHolds(lowest) <==> 0 <= lowest
  {
    if 0 <= lowest {
      forall user, ops | AllProper(ops, user, lowest) ensures Total(Run(Nothing(), ops).rows, user) <= BOUND {
        TotalOfNone(user);
        assert forall i :: 0 <= i < |ops| && Proper(ops[i], user, lowest) ==> Proper(ops[i], user, 0);
        RunKeepsWithin(Nothing(), user, ops);
      }
    } else {
      var ops := NegativeBookingMakesRoom();
      hide Run, Total;
      assert forall i :: 0 <= i < |ops| && Proper(ops[i], "m", -1) ==> Proper(ops[i], "m", lowest);
      assert AllProper(ops, "m", lowest);
    }
  }
}
