/** The life of an event in daemon/event.go: creating, booking, starting, suspending, stopping and closing, kept
    both in the database and in the pool. */
module Events {
  import opened Wrappers
  import opened EventPools
  import B = Booking

  const NP_USER_MAX_LABS: int := 40
  const VPN_MAX: int := 253
  const DEFAULT_CAPACITY: int := 10
  const DEFAULT_DAYS: int := 15

  datatype User = User(name: UserName, np: bool)

  /** An event in the database that has not been closed. */
  datatype Row = Row(createdBy: UserName, capacity: int, start: B.Time, finish: B.Time, status: Status)

  /** The database, live rows by tag and closed rows apart from them, and the pool.  A crashed daemon takes no more
      steps. */
  datatype State = State(rows: map<Tag, Row>, archive: seq<(Tag, Row)>, pool: Pool, crashed: bool)

  /** A date that cannot be parsed is None; `frontends` is the length of their list. */
  datatype Request = Request(tag: Tag, capacity: int, vpn: bool, start: Option<B.Time>, finish: Option<B.Time>,
                             frontends: nat)

  /** How far the steps around NewHub get when an event is built from its row: looking up exercises and teams before
      it, connecting services after it. */
  datatype Building = Complete | NotPrepared | NotConnected

  /** What CreateEvent learns from elsewhere: the time; whether the tag is reserved or an exercise is unknown or
      secret; whether the configuration is complete, its tag aside; the time series of the database; and the building
      of the event. */
  datatype Surroundings = Surroundings(now: B.Time, refused: bool, valid: bool, series: B.Series, building: Building)

  datatype CreateResult =
    | CapacityExceeds | OutOfQuota | QuotaUsedUp | Refused | InvalidStart | NotAvailableTag | NotBooked
    | BookedIt | BookingCrashed | InvalidConfig | DuplicateEvent | CreationFailed | Crashed | Started

  datatype VisitResult = Visited | NotBuilt | VisitCrashed

  datatype StopResult = InvalidTag | StatusUnknown | UnknownEvent | NoPrivilege | Stopped | Dropped | NothingDropped

  datatype SuspendResult = NoSuchEvent | NotOwner | Done

  predicate AlphaNumeric(c: char) { 'a' <= c <= 'z' || '0' <= c <= '9' }

  /** What NewTag accepts: `^[a-z0-9][a-z0-9-]*[a-z0-9]$` */
  predicate ValidTag(t: Tag) {
    && |t| >= 2 && AlphaNumeric(t[0]) && AlphaNumeric(t[|t| - 1])
    && forall i :: 0 <= i < |t| ==> AlphaNumeric(t[i]) || t[i] == '-'
  }

  // ----- Sums over rows -----

  /** The order in which the rows are added up does not matter, see SumSplit. */
  ghost function Sum(rows: map<Tag, Row>, f: Row -> int): int {
    if rows == map[] then 0
    else var t :| t in rows; f(rows[t]) + Sum(rows - {t}, f)
  }

  lemma {:induction false} SumSplit(rows: map<Tag, Row>, f: Row -> int, t: Tag)
    requires t in rows
    ensures Sum(rows, f) == f(rows[t]) + Sum(rows - {t}, f)
    decreases |rows|
  {
    assert rows != map[];
    var u :| u in rows && Sum(rows, f) == f(rows[u]) + Sum(rows - {u}, f);
    if u != t {
      SumSplit(rows - {u}, f, t);
      SumSplit(rows - {t}, f, u);
      assert rows - {u} - {t} == rows - {t} - {u};
    }
  }

  function Share(r: Row, user: UserName): int { if r.createdBy == user then r.capacity else 0 }

  function ShareOf(user: UserName): Row -> int { r => Share(r, user) }

  /** The capacity of all events of a user that are not closed. */
  ghost function Total(rows: map<Tag, Row>, user: UserName): int { Sum(rows, ShareOf(user)) }

  lemma TotalSplit(rows: map<Tag, Row>, user: UserName, t: Tag)
    requires t in rows
    ensures Total(rows, user) == Share(rows[t], user) + Total(rows - {t}, user)
  {
    SumSplit(rows, ShareOf(user), t);
  }

  lemma TotalOfNone(user: UserName)
    ensures Total(map[], user) == 0
  {
  }

  ghost predicate QuotaLeft(rows: map<Tag, Row>, u: User) {
    !u.np || B.Wrap32(Total(rows, u.name)) <= NP_USER_MAX_LABS
  }

  // ----- Specification of the steps -----

  /** NewHub makes a channel of the event's capacity, and a negative size panics. */
  predicate Panics(capacity: int, building: Building) { building != NotPrepared && capacity < 0 }

  predicate Builds(capacity: int, building: Building) { building == Complete && capacity >= 0 }

  /** math.Round(start.Sub(now).Hours() / 24) */
  function DaysUntil(start: B.Time, now: B.Time): int { B.RoundToDays(B.Sub(start, now)) }

  function Parsed(t: Option<B.Time>): B.Time { match t case Some(v) => v case None => 0 }

  /** bookEvent: the row names the first frontend, and indexing an empty list panics. */
  function BookingOutcome(r: Request, series: B.Series, quotaLeft: bool): CreateResult {
    if r.start.None? || r.finish.None? then NotBooked
    else
      match B.FreeOn(series, r.start.value, r.finish.value, r.capacity)
      case NilMap => BookingCrashed
      case NotFree => NotBooked
      case Free => if !quotaLeft then NotBooked else if r.frontends == 0 then BookingCrashed else BookedIt
  }

  ghost function CreateOutcome(s: State, u: User, r: Request, e: Surroundings): CreateResult {
    if r.vpn && r.capacity > VPN_MAX then CapacityExceeds
    else if u.np && r.capacity > NP_USER_MAX_LABS then OutOfQuota
    else if !QuotaLeft(s.rows, u) then QuotaUsedUp
    else if e.refused then Refused
    else if Parsed(r.start) == 0 then InvalidStart
    else if r.tag in s.rows then NotAvailableTag
    else if DaysUntil(r.start.value, e.now) >= 1 then
      BookingOutcome(r, e.series, QuotaLeft(s.rows, u))
    else if !e.valid || !ValidTag(r.tag) || r.frontends == 0 then InvalidConfig
    else if r.tag in s.pool.events then DuplicateEvent
    else if Panics(r.capacity, e.building) then Crashed
    else if Builds(r.capacity, e.building) then Started
    else CreationFailed
  }

  /** The row of an event that starts at once, with the defaults filled in. */
  function NewRow(u: User, r: Request, now: B.Time): Row {
    Row(u.name, if r.capacity == 0 then DEFAULT_CAPACITY else r.capacity, Parsed(r.start),
        if Parsed(r.finish) < now || Parsed(r.finish) == 0 then now + DEFAULT_DAYS * B.DAY else Parsed(r.finish),
        Running)
  }

  function EventOf(t: Tag, r: Row): Event { Event(t, r.createdBy, r.capacity, r.finish, Running) }

  /** What a request with this outcome does when it comes to writing. */
  function Effect(s: State, u: User, r: Request, e: Surroundings, outcome: CreateResult): State {
    match outcome
    case BookedIt =>
      s.(rows := s.rows[r.tag := Row(u.name, r.capacity, Parsed(r.start), Parsed(r.finish), Booked)])
    case BookingCrashed => s.(crashed := true)
    case Started =>
      s.(rows := s.rows[r.tag := NewRow(u, r, e.now)], pool := Added(s.pool, EventOf(r.tag, NewRow(u, r, e.now))))
    case CreationFailed => s.(rows := s.rows[r.tag := NewRow(u, r, e.now)])
    case Crashed => s.(rows := s.rows[r.tag := NewRow(u, r, e.now)], crashed := true)
    case _ => s
  }

  ghost function Create(s: State, u: User, r: Request, e: Surroundings): State {
    Effect(s, u, r, e, CreateOutcome(s, u, r, e))
  }

  function WithStatus(s: State, t: Tag, status: Status): map<Tag, Row> {
    if t in s.rows then s.rows[t := s.rows[t].(status := status)] else s.rows
  }

  predicate Allowed(u: User, owner: UserName) { !u.np || u.name == owner }

  function SuspendOutcome(s: State, u: User, t: Tag): SuspendResult {
    if t !in s.pool.events then NoSuchEvent
    else if Allowed(u, s.pool.events[t].createdBy) then Done else NotOwner
  }

  function Suspend(s: State, u: User, t: Tag, suspend: bool): State {
    if SuspendOutcome(s, u, t) != Done then s
    else
      var status := if suspend then Suspended else Running;
      s.(rows := WithStatus(s, t, status),
         pool := Pool(s.pool.events[t := s.pool.events[t].(status := status)],
                      s.pool.handlers[t := if suspend then SuspendPage else EventPages(t)]))
  }

  predicate IsBooking(r: Row, user: UserName) { r.status == Booked && r.createdBy == user }

  predicate HasBooking(rows: map<Tag, Row>, user: UserName) { exists t :: t in rows && IsBooking(rows[t], user) }

  function StopOutcome(s: State, u: User, t: Tag): StopResult {
    if !ValidTag(t) then InvalidTag
    else if t !in s.rows then StatusUnknown
    else if s.rows[t].status in {Running, Suspended} then
      if t !in s.pool.events then UnknownEvent
      else if Allowed(u, s.pool.events[t].createdBy) then Stopped else NoPrivilege
    else if s.rows[t].status == Booked && (u.np ==> HasBooking(s.rows, u.name)) then Dropped
    else NothingDropped
  }

  /** Closing: the row gets status Closed and a new tag, and the event leaves the pool. */
  function Close(s: State, t: Tag): State {
    s.(rows := s.rows - {t},
       archive := if t in s.rows then s.archive + [(t, s.rows[t].(status := Closed))] else s.archive,
       pool := Removed(s.pool, t))
  }

  function Stop(s: State, u: User, t: Tag): State {
    match StopOutcome(s, u, t)
    case Stopped => Close(s, t)
    case Dropped => s.(rows := s.rows - {t})
    case _ => s
  }

  predicate Due(s: State, t: Tag, now: B.Time) {
    t in s.rows && s.rows[t].status == Booked && s.rows[t].start <= now
  }

  function StartBooked(s: State, t: Tag): State
    requires t in s.rows
  {
    s.(rows := WithStatus(s, t, Running), pool := Added(s.pool, EventOf(t, s.rows[t])))
  }

  /** The building of the booked events; one that is not mentioned is complete. */
  type Buildings = map<Tag, Building>

  function BuildingOf(buildings: Buildings, t: Tag): Building { if t in buildings then buildings[t] else Complete }

  predicate BookingBuilds(s: State, t: Tag, buildings: Buildings)
    requires t in s.rows
  {
    Builds(s.rows[t].capacity, BuildingOf(buildings, t))
  }

  /** One round over the booked events; it ends at the first due event that cannot be built. */
  function Visit(s: State, listed: seq<Tag>, now: B.Time, buildings: Buildings): (State, VisitResult)
    decreases |listed|
  {
    if listed == [] then (s, Visited)
    else
      var t := listed[0];
      if !Due(s, t, now) then Visit(s, listed[1..], now, buildings)
      else if Panics(s.rows[t].capacity, BuildingOf(buildings, t)) then (s.(crashed := true), VisitCrashed)
      else if !BookingBuilds(s, t, buildings) then (s, NotBuilt)
      else Visit(StartBooked(s, t), listed[1..], now, buildings)
  }

  predicate Overdue(s: State, t: Tag, now: B.Time) { t in s.pool.events && s.pool.events[t].finish <= now }

  function CloseAll(s: State, listed: seq<Tag>, now: B.Time): State
    decreases |listed|
  {
    if listed == [] then s
    else CloseAll(if Overdue(s, listed[0], now) then Close(s, listed[0]) else s, listed[1..], now)
  }

  // ----- The daemon -----

  function Nothing(): State { State(map[], [], Pool(map[], map[]), false) }

  class Daemon {
    var rows: map<Tag, Row>
    var archive: seq<(Tag, Row)>
    var crashed: bool
    const pool: EventPool

    function Contents(): State
      reads this, pool
    {
      State(rows, archive, pool.Contents(), crashed)
    }

    constructor ()
      ensures fresh(pool) && Contents() == Nothing()
    {
      rows, archive, crashed := map[], [], false;
      pool := new EventPool();
    }

    /** checkUserQuota: the sum is an int32. */
    method CheckUserQuota(u: User) returns (eligible: bool)
      ensures eligible <==> QuotaLeft(rows, u)
    {
      var cost, todo := 0, rows;
      ghost var total := Total(rows, u.name);
      hide Total, B.Wrap32;
      while todo != map[]
        invariant cost == B.Wrap32(total - Total(todo, u.name))
        decreases |todo|
      {
        var t :| t in todo;
        TotalSplit(todo, u.name, t);
        if todo[t].createdBy == u.name {
          B.WrapAdds(total - Total(todo, u.name), todo[t].capacity);
          cost := B.Wrap32(cost + todo[t].capacity);
        }
        todo := todo - {t};
      }
      TotalOfNone(u.name);
      eligible := !(u.np && cost > NP_USER_MAX_LABS);
    }

    method CreateEvent(u: User, r: Request, e: Surroundings) returns (result: CreateResult)
      requires !crashed
      modifies this, pool
      ensures Contents() == Create(old(Contents()), u, r, e)
      ensures result == CreateOutcome(old(Contents()), u, r, e)
    {
      if r.vpn && r.capacity > VPN_MAX { return CapacityExceeds; }
      if u.np && r.capacity > NP_USER_MAX_LABS { return OutOfQuota; }
      var eligible := CheckUserQuota(u);
      if !eligible { return QuotaUsedUp; }
      if e.refused { return Refused; }
      var startTime := Parsed(r.start);
      if startTime == 0 { return InvalidStart; }
      if r.tag in rows { return NotAvailableTag; }
      if DaysUntil(startTime, e.now) >= 1 {
        result := BookEvent(u, r, e.series);
        return;
      }
      if !e.valid || !ValidTag(r.tag) || r.frontends == 0 { return InvalidConfig; }
      var known := pool.GetEvent(r.tag);
      if known.Some? { return DuplicateEvent; }
      var capacity := r.capacity;
      if capacity == 0 { capacity := DEFAULT_CAPACITY; }
      var finish := Parsed(r.finish);
      if finish < e.now || finish == 0 { finish := e.now + DEFAULT_DAYS * B.DAY; }
      rows := rows[r.tag := Row(u.name, capacity, startTime, finish, Running)];
      if e.building == NotPrepared { return CreationFailed; }
      if capacity < 0 {
        crashed := true;
        return Crashed;
      }
      if e.building == NotConnected { return CreationFailed; }
      pool.AddEvent(EventOf(r.tag, rows[r.tag]));
      result := Started;
    }

    method BookEvent(u: User, r: Request, series: B.Series) returns (result: CreateResult)
      modifies this`rows, this`crashed
      ensures result == BookingOutcome(r, series, QuotaLeft(old(rows), u))
      ensures result == BookedIt ==> QuotaLeft(old(rows), u)
      ensures Contents() == Effect(old(Contents()), u, r, Surroundings(0, false, true, series, Complete), result)
    {
      if r.start.None? || r.finish.None? { return NotBooked; }
      var isFree := B.IsFree(series, r.start.value, r.finish.value, r.capacity);
      if isFree == B.NilMap {
        crashed := true;
        return BookingCrashed;
      }
      if isFree == B.NotFree { return NotBooked; }
      var isQuotaAvailable := CheckUserQuota(u);
      if !isQuotaAvailable { return NotBooked; }
      if !u.np || (u.np && isQuotaAvailable) {
        if r.frontends == 0 {
          crashed := true;
          return BookingCrashed;
        }
        rows := rows[r.tag := Row(u.name, r.capacity, r.start.value, r.finish.value, Booked)];
      }
      result := BookedIt;
    }

    method SuspendEvent(u: User, t: Tag, suspend: bool) returns (result: SuspendResult)
      requires !crashed
      modifies this`rows, pool
      ensures Contents() == Suspend(old(Contents()), u, t, suspend)
      ensures result == SuspendOutcome(old(Contents()), u, t)
    {
      var ev := pool.GetEvent(t);
      if ev.None? { return NoSuchEvent; }
      if !(!u.np || (u.np && u.name == ev.value.createdBy)) { return NotOwner; }
      if suspend {
        SetEventStatus(t, Suspended);
        pool.SetStatus(t, Suspended);
        pool.SetHandler(t, SuspendPage);
        return Done;
      }
      SetEventStatus(t, Running);
      pool.SetHandler(t, EventPages(t));
      pool.SetStatus(t, Running);
      result := Done;
    }

    /** The database sets the status of the live row with this tag. */
    method SetEventStatus(t: Tag, status: Status)
      modifies this`rows
      ensures rows == WithStatus(old(Contents()), t, status)
    {
      if t in rows { rows := rows[t := rows[t].(status := status)]; }
    }

    method StopEvent(u: User, t: Tag) returns (result: StopResult)
      requires !crashed
      modifies this, pool
      ensures Contents() == Stop(old(Contents()), u, t)
      ensures result == StopOutcome(old(Contents()), u, t)
    {
      if !ValidTag(t) { return InvalidTag; }
      if t !in rows { return StatusUnknown; }
      if rows[t].status == Running || rows[t].status == Suspended {
        var ev := pool.GetEvent(t);
        if ev.None? { return UnknownEvent; }
        if (u.np && u.name == ev.value.createdBy) || !u.np {
          CloseEvent(t);
          return Stopped;
        }
        return NoPrivilege;
      }
      if rows[t].status != Booked { return NothingDropped; }
      if u.np { result := StopOwnBooking(u, t); return; }
      DropEvent(t);
      result := Dropped;
    }

    /** The loop over the bookings of a restricted user; it asks for the same tag every time. */
    method StopOwnBooking(u: User, t: Tag) returns (result: StopResult)
      requires t in rows && rows[t].status == Booked
      modifies this`rows
      ensures rows == if HasBooking(old(rows), u.name) then old(rows) - {t} else old(rows)
      ensures result == if HasBooking(old(rows), u.name) then Dropped else NothingDropped
    {
      var response := rows;
      var todo := response.Keys;
      result := NothingDropped;
      while todo != {}
        invariant todo <= response.Keys
        invariant result == NothingDropped ==> rows == response
        invariant result == Dropped ==> rows == response - {t} && HasBooking(response, u.name)
        invariant result == NothingDropped || result == Dropped
        invariant result == NothingDropped ==>
                    forall k :: k in response && k !in todo ==> !IsBooking(response[k], u.name)
        decreases |todo|
      {
        var k :| k in todo;
        if IsBooking(response[k], u.name) {
          DropEvent(t);
          result := Dropped;
        }
        todo := todo - {k};
      }
    }

    /** DropEvent of the database, for status Booked. */
    method DropEvent(t: Tag)
      modifies this`rows
      ensures rows == if t in old(rows) && old(rows)[t].status == Booked then old(rows) - {t} else old(rows)
    {
      if t in rows && rows[t].status == Booked { rows := rows - {t}; }
    }

    /** What StopEvent and closeEvents share: SetEventStatus, RemoveEvent and Finish. */
    method CloseEvent(t: Tag)
      modifies this, pool
      ensures Contents() == Close(old(Contents()), t)
    {
      if t in rows {
        archive := archive + [(t, rows[t].(status := Closed))];
        rows := rows - {t};
      }
      var known := pool.RemoveEvent(t);
    }

    /** `listed` is the database's answer to the question for booked events. */
    method VisitBookedEvents(listed: seq<Tag>, now: B.Time, buildings: Buildings) returns (result: VisitResult)
      requires !crashed
      modifies this, pool
      ensures (Contents(), result) == Visit(old(Contents()), listed, now, buildings)
    {
      for i := 0 to |listed|
        invariant Visit(Contents(), listed[i..], now, buildings) == Visit(old(Contents()), listed, now, buildings)
      {
        var t := listed[i];
        if t in rows && rows[t].status == Booked && rows[t].start <= now {
          var building := BuildingOf(buildings, t);
          if building == NotPrepared { return NotBuilt; }
          if rows[t].capacity < 0 {
            crashed := true;
            return VisitCrashed;
          }
          if building == NotConnected { return NotBuilt; }
          pool.AddEvent(EventOf(t, rows[t]));
          SetEventStatus(t, Running);
        }
      }
      result := Visited;
    }

    /** `listed` are the events of the pool in the order in which they are processed. */
    method CloseEvents(listed: seq<Tag>, now: B.Time)
      requires !crashed
      modifies this, pool
      ensures Contents() == CloseAll(old(Contents()), listed, now)
    {
      for i := 0 to |listed|
        invariant CloseAll(Contents(), listed[i..], now) == CloseAll(old(Contents()), listed, now)
      {
        var ev := pool.GetEvent(listed[i]);
        if ev.Some? && ev.value.finish <= now { CloseEvent(listed[i]); }
      }
    }
  }
}
