/** Booking by days: getDates and isFree of daemon/daemon.go. */
module Booking {
  type Time = int               // seconds, UTC
  type Day = int                // days, on the same axis
  type Series = map<Day, int>   // capacity already promised for a day; the source keys it by formatted date

  const DAY: int := 86400
  const NS_PER_DAY: int := 86400_000_000_000
  const MAX_NS: int := 0x7FFF_FFFF_FFFF_FFFF
  const LIMIT: int := 90        // machines that may be promised for one day
  const MAX32: int := 0x7FFF_FFFF
  const SPAN: int := 106752     // the longest difference of days that time.Duration can tell apart

  predicate Int32(n: int) { -MAX32 - 1 <= n <= MAX32 }

  /** Addition on int32 wraps around. */
  function Wrap32(n: int): (r: int)
    ensures Int32(r) && (r - n) % 0x1_0000_0000 == 0
    ensures Int32(n) ==> r == n
  {
    (n + 0x8000_0000) % 0x1_0000_0000 - 0x8000_0000
  }

  lemma WrapAdds(a: int, b: int)
    ensures Wrap32(Wrap32(a) + b) == Wrap32(a + b)
  {
  }

  function DayOf(t: Time): Day { t / DAY }

  function ZeroTime(t: Time): Time { DayOf(t) * DAY }

  /** Time.Sub: a difference in nanoseconds, clipped to what a Duration holds. */
  function Sub(f: Time, s: Time): int {
    var ns := (f - s) * 1_000_000_000;
    if ns > MAX_NS then MAX_NS else if ns < -MAX_NS - 1 then -MAX_NS - 1 else ns
  }

  function Abs(n: int): nat { if n < 0 then -n else n }

  /** Of all durations, 64-bit numbers of nanoseconds, Sub answers the one nearest to the difference. */
  lemma SubIsNearest(f: Time, s: Time, d: int)
    requires -0x8000_0000_0000_0000 <= d < 0x8000_0000_0000_0000
    ensures -0x8000_0000_0000_0000 <= Sub(f, s) < 0x8000_0000_0000_0000
    ensures var ns := (f - s) * 1_000_000_000; Abs(ns - Sub(f, s)) <= Abs(ns - d)
  {
  }

  /** math.Round(d.Hours() / 24), rounding halves away from zero. */
  function RoundToDays(ns: int): int {
    if ns >= 0 then (2 * ns + NS_PER_DAY) / (2 * NS_PER_DAY) else -((-2 * ns + NS_PER_DAY) / (2 * NS_PER_DAY))
  }

  function DaysInDates(s: Time, f: Time): int { RoundToDays(Sub(f, s)) }

  /** At midnight the rounding is exact; what is clipped still counts as SPAN days. */
  lemma DaysBetweenMidnights(s: Time, f: Time)
    ensures var diff := DayOf(f) - DayOf(s);
      DaysInDates(ZeroTime(s), ZeroTime(f)) == if diff > SPAN then SPAN else if diff < -SPAN then -SPAN else diff
  {
    var diff := DayOf(f) - DayOf(s);
    var ns := (ZeroTime(f) - ZeroTime(s)) * 1_000_000_000;
    assert ns == diff * NS_PER_DAY;
    if ns > MAX_NS {
      assert diff >= SPAN;
    } else if ns < -MAX_NS - 1 {
      assert diff <= -SPAN;
    } else {
      assert -SPAN <= diff <= SPAN;
      RoundIsExact(diff);
    }
  }

  lemma RoundIsExact(n: int)
    ensures RoundToDays(n * NS_PER_DAY) == n
  {
  }

  /** The `n` days from `first` on. */
  function Span(first: Day, n: int): (days: seq<Day>)
    ensures |days| == if n > 0 then n else 0
    ensures forall i :: 0 <= i < |days| ==> days[i] == first + i
  {
    if n <= 0 then [] else Span(first, n - 1) + [first + n - 1]
  }

  /** The days getDates lists. */
  function DaysOf(s: Time, f: Time): (days: seq<Day>) {
    var n := DayOf(f) - DayOf(s);
    Span(DayOf(s), (if n > SPAN then SPAN else n) + 1)
  }

  method GetDates(s: Time, f: Time) returns (dates: seq<Time>)
    ensures |dates| == |DaysOf(s, f)|
    ensures forall i :: 0 <= i < |dates| ==> dates[i] == DaysOf(s, f)[i] * DAY
  {
    var sT, fT := ZeroTime(s), ZeroTime(f);
    var days := DaysInDates(sT, fT);
    DaysBetweenMidnights(s, f);
    hide DaysInDates;
    var count := 0;
    dates := [];
    while count <= days
      invariant count == |dates| && sT == (DayOf(s) + count) * DAY
      invariant count > 0 ==> count <= days + 1
      invariant forall i :: 0 <= i < count ==> dates[i] == (DayOf(s) + i) * DAY
    {
      var date := sT;
      sT := date + DAY;
      dates := dates + [date];
      count := count + 1;
    }
  }

  // ----- What a booking asks of a day -----

  function Promised(series: Series, day: Day): int { if day in series then series[day] else 0 }

  /** The comparison isFree makes for one day, on int32. */
  predicate Passes(promised: int, capacity: int) { Wrap32(promised + capacity) <= LIMIT }

  predicate Accepts(series: Series, day: Day, capacity: int) { Passes(Promised(series, day), capacity) }

  predicate AllAccept(series: Series, days: seq<Day>, capacity: int) {
    forall i :: 0 <= i < |days| ==> Accepts(series, days[i], capacity)
  }

  /** getDates lists every day from start to finish once, in order (none when the finish is on an earlier day),
      exactly when the two are at most SPAN days apart. */
  lemma DaysAreCompleteIff(s: Time, f: Time)
    ensures var days := DaysOf(s, f);
      && (forall i, j :: 0 <= i < j < |days| ==> days[i] < days[j])
      && (forall d :: d in days ==> DayOf(s) <= d <= DayOf(f))
      && ((forall d :: DayOf(s) <= d <= DayOf(f) ==> d in days) <==> DayOf(f) - DayOf(s) <= SPAN)
  {
    var days := DaysOf(s, f);
    forall d | DayOf(s) <= d <= DayOf(f) && DayOf(f) - DayOf(s) <= SPAN ensures d in days {
      assert days[d - DayOf(s)] == d;
    }
    if DayOf(f) - DayOf(s) > SPAN { assert DayOf(f) !in days; }
  }

  /** What isFree answers.  A time series without entries arrives as a nil map, and the first write to it panics. */
  datatype FreeAnswer = Free | NotFree | NilMap

  function FreeOn(m: Series, s: Time, f: Time, capacity: int): FreeAnswer {
    if m == map[] && DaysOf(s, f) != [] then NilMap
    else if AllAccept(m, DaysOf(s, f), capacity) then Free else NotFree
  }

  method IsFree(m: Series, s: Time, f: Time, capacity: int) returns (answer: FreeAnswer)
    ensures answer == FreeOn(m, s, f, capacity)
  {
    var series := m;
    var interval := GetDates(s, f);
    ghost var days := DaysOf(s, f);
    assert |days| == |interval|;
    for i := 0 to |interval|
      invariant i > 0 ==> m != map[]
      invariant forall k :: 0 <= k < i ==> Accepts(m, days[k], capacity)
      invariant forall k :: i <= k < |days| ==> Promised(series, days[k]) == Promised(m, days[k])
    {
      if m == map[] { return NilMap; }
      var day := DayOf(interval[i]);
      assert day == days[i];
      series := series[day := Wrap32(Promised(series, day) + capacity)];
      if series[day] > LIMIT { return NotFree; }
    }
    answer := Free;
  }

  /** The answer for every int32 input: isFree crashes exactly on an empty series and an interval that holds a day,
      whatever the capacity; otherwise it succeeds exactly when every day accepts. */
  lemma FreeOnIff(m: Series, s: Time, f: Time, capacity: int)
    ensures FreeOn(m, s, f, capacity) == NilMap <==> m == map[] && DayOf(s) <= DayOf(f)
    ensures FreeOn(m, s, f, capacity) == Free <==>
            DayOf(f) < DayOf(s) || (m != map[] && AllAccept(m, DaysOf(s, f), capacity))
  {
    assert |DaysOf(s, f)| > 0 <==> DayOf(s) <= DayOf(f);
  }

  /** The test is the intended one as long as the sum is an int32.  A sum above is always accepted, a sum below only
      when it is so low that it wraps around to no more than the limit. */
  lemma AcceptsIff(series: Series, day: Day, capacity: int)
    requires Int32(Promised(series, day)) && Int32(capacity)
    ensures var sum := Promised(series, day) + capacity;
      Accepts(series, day, capacity) <==>
      if sum > MAX32 then true else if sum < -MAX32 - 1 then sum <= LIMIT - 0x1_0000_0000 else sum <= LIMIT
  {
    var sum := Promised(series, day) + capacity;
    assert Wrap32(sum) == if sum > MAX32 then sum - 0x1_0000_0000
                          else if sum < -MAX32 - 1 then sum + 0x1_0000_0000 else sum;
  }

  /** One booking by itself keeps a day that is within the limit there exactly if its capacity is not so large that
      the sum can wrap around. */
  lemma SafeCapacityIff(capacity: int)
    requires Int32(capacity)
    ensures (forall p :: 0 <= p <= LIMIT && Passes(p, capacity) ==> p + capacity <= LIMIT)
            <==> capacity <= MAX32 - LIMIT
  {
    if capacity > MAX32 - LIMIT {
      assert Wrap32(LIMIT + capacity) == LIMIT + capacity - 0x1_0000_0000;
      assert Passes(LIMIT, capacity);
    }
  }

  // ----- Runs of bookings -----

  datatype Booking = Booking(start: Time, finish: Time, capacity: int)

  predicate Covers(b: Booking, day: Day) { day in DaysOf(b.start, b.finish) }

  predicate Granted(series: Series, b: Booking) { FreeOn(series, b.start, b.finish, b.capacity) == Free }

  /** The ledger after a granted booking: the capacity added to each of its days. */
  function AddTo(series: Series, days: seq<Day>, capacity: int): (r: Series)
    requires forall i, j :: 0 <= i < j < |days| ==> days[i] != days[j]
    ensures forall d :: Promised(r, d) == Promised(series, d) + if d in days then capacity else 0
  {
    if days == [] then series
    else
      var most := days[..|days| - 1];
      var day := days[|days| - 1];
      assert day !in most && forall d :: d in days <==> d in most || d == day;
      var r := AddTo(series, most, capacity);
      r[day := Promised(r, day) + capacity]
  }

  function AfterBooking(series: Series, b: Booking): Series {
    if Granted(series, b) then AddTo(series, DaysOf(b.start, b.finish), b.capacity) else series
  }

  function AfterAll(series: Series, bs: seq<Booking>): Series {
    if bs == [] then series else AfterBooking(AfterAll(series, bs[..|bs| - 1]), bs[|bs| - 1])
  }

  /** The capacity of the granted bookings of the run that cover a day. */
  function GrantedOn(series: Series, bs: seq<Booking>, day: Day): int {
    if bs == [] then 0
    else
      var most, b := bs[..|bs| - 1], bs[|bs| - 1];
      GrantedOn(series, most, day) + if Granted(AfterAll(series, most), b) && Covers(b, day) then b.capacity else 0
  }

  /** A ledger that starts empty stays empty: the bookings for at least one day that would fill it are the ones that
      crash. */
  lemma {:induction false} EmptyLedgerStaysEmpty(bs: seq<Booking>, b: Booking)
    ensures AfterAll(map[], bs) == map[]
    ensures DayOf(b.start) <= DayOf(b.finish) ==> FreeOn(AfterAll(map[], bs), b.start, b.finish, b.capacity) == NilMap
  {
    if bs != [] {
      var last := bs[|bs| - 1];
      EmptyLedgerStaysEmpty(bs[..|bs| - 1], last);
      FreeOnIff(map[], last.start, last.finish, last.capacity);
    }
    FreeOnIff(map[], b.start, b.finish, b.capacity);
  }

  /** What is promised after a run is what was there plus the granted bookings that cover the day. */
  lemma {:induction false} LedgerIsSum(series: Series, bs: seq<Booking>, day: Day)
    ensures Promised(AfterAll(series, bs), day) == Promised(series, day) + GrantedOn(series, bs, day)
  {
    if bs != [] { LedgerIsSum(series, bs[..|bs| - 1], day); }
  }

  predicate WithinLimit(series: Series) { forall d :: d in series ==> 0 <= series[d] <= LIMIT }

  /** The machines really needed on a day: a booking of negative capacity gives none back. */
  function Needed(series: Series, bs: seq<Booking>, day: Day): int {
    if bs == [] then Promised(series, day)
    else
      var most, b := bs[..|bs| - 1], bs[|bs| - 1];
      Needed(series, most, day)
      + if Granted(AfterAll(series, most), b) && Covers(b, day) && b.capacity > 0 then b.capacity else 0
  }

  ghost predicate Between(bs: seq<Booking>, low: int, high: int) {
    forall i :: 0 <= i < |bs| ==> low <= bs[i].capacity <= high
  }

  /** No run of bookings with capacities from `low` to `high` needs more machines on a day than the limit. */
  ghost predicate DaysHold(low: int, high: int) {
    forall series, bs, day :: WithinLimit(series) && Between(bs, low, high) ==> Needed(series, bs, day) <= LIMIT
  }

  /** Whatever had been promised, the days hold exactly for capacities that are not negative and not so large that a
      sum wraps around (or if nobody can ask for anything). */
  lemma DaysHoldIff(low: int, high: int)
    requires Int32(low) && Int32(high) && low <= high
    ensures DaysHold(low, high) <==> high <= 0 || (0 <= low && high <= MAX32 - LIMIT)
  {
    if high <= 0 {
      forall series, bs, day | WithinLimit(series) && Between(bs, low, high) ensures Needed(series, bs, day) <= LIMIT {
        NothingNeeded(series, bs, day);
      }
    } else if 0 <= low && high <= MAX32 - LIMIT {
      forall series, bs, day | WithinLimit(series) && Between(bs, low, high) ensures Needed(series, bs, day) <= LIMIT {
        NoDayIsOverbooked(series, bs, day);
      }
    } else if low < 0 {
      var bs := NegativeMakesRoom();
      assert Between(bs, low, high) && WithinLimit(map[0 := LIMIT]);
    } else {
      FullDayAccepts(high);
      assert Between([Booking(0, 0, high)], low, high) && WithinLimit(map[0 := LIMIT]);
    }
  }

  lemma {:induction false} NothingNeeded(series: Series, bs: seq<Booking>, day: Day)
    requires WithinLimit(series) && forall i :: 0 <= i < |bs| ==> bs[i].capacity <= 0
    ensures Needed(series, bs, day) <= LIMIT
  {
    if bs != [] { NothingNeeded(series, bs[..|bs| - 1], day); }
  }

  lemma {:induction false} NoDayIsOverbooked(series: Series, bs: seq<Booking>, day: Day)
    requires WithinLimit(series) && Between(bs, 0, MAX32 - LIMIT)
    ensures Needed(series, bs, day) == Promised(AfterAll(series, bs), day) && WithinLimit(AfterAll(series, bs))
    ensures Needed(series, bs, day) <= LIMIT
  {
    if bs != [] {
      var most, b := bs[..|bs| - 1], bs[|bs| - 1];
      NoDayIsOverbooked(series, most, day);
      BookingKeepsLimit(AfterAll(series, most), b);
    }
  }

  lemma BookingKeepsLimit(series: Series, b: Booking)
    requires WithinLimit(series) && 0 <= b.capacity <= MAX32 - LIMIT
    ensures WithinLimit(AfterBooking(series, b))
  {
    var days, after := DaysOf(b.start, b.finish), AfterBooking(series, b);
    if Granted(series, b) {
      forall d | d in after ensures 0 <= after[d] <= LIMIT {
        assert after[d] == Promised(after, d);
        if d in days {
          var i :| 0 <= i < |days| && days[i] == d;
          assert Accepts(series, days[i], b.capacity);
          AcceptsIff(series, d, b.capacity);
        }
      }
    }
  }

  lemma OneDay(series: Series, capacity: int)
    requires series != map[] && Accepts(series, 0, capacity)
    ensures Granted(series, Booking(0, 0, capacity)) && Covers(Booking(0, 0, capacity), 0)
    ensures Promised(AfterBooking(series, Booking(0, 0, capacity)), 0) == Promised(series, 0) + capacity
  {
    assert DaysOf(0, 0) == Span(0, 1) == [0];
  }

  // A full day accepts a capacity that is too large for the sum.
  lemma FullDayAccepts(capacity: int)
    requires MAX32 - LIMIT < capacity <= MAX32
    ensures Needed(map[0 := LIMIT], [Booking(0, 0, capacity)], 0) == LIMIT + capacity
  {
    AcceptsIff(map[0 := LIMIT], 0, capacity);
    OneDay(map[0 := LIMIT], capacity);
  }

  // A full day accepts -1 machine and then one.
  lemma NegativeMakesRoom() returns (bs: seq<Booking>)
    ensures Between(bs, -1, 1) && Needed(map[0 := LIMIT], bs, 0) == LIMIT + 1
  {
    var full, a, b := map[0 := LIMIT], Booking(0, 0, -1), Booking(0, 0, 1);
    bs := [a, b];
    AcceptsIff(full, 0, -1);
    OneDay(full, -1);
    var after := AfterBooking(full, a);
    AcceptsIff(after, 0, 1);
    OneDay(after, 1);
    assert bs[..1] == [a] && [a][..0] == [];
    assert AfterAll(full, [a]) == AfterBooking(AfterAll(full, []), a);
    assert Needed(full, [a], 0) == LIMIT;
  }
}
