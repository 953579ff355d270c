/** What runs of the daemon keep between database and pool, and what one step does to them. */
module EventLaws {
  import opened Wrappers
  import opened EventPools
  import opened Events
  import B = Booking

  datatype Op =
    | CreateOp(u: User, r: Request, e: Surroundings)
    | SuspendOp(u: User, t: Tag, suspend: bool)
    | StopOp(u: User, t: Tag)
    | VisitOp(listed: seq<Tag>, now: B.Time, buildings: Buildings)
    | CloseOp(listed: seq<Tag>, now: B.Time)

  /** A step of the daemon while it is up. */
  ghost function Act(s: State, op: Op): State {
    match op
    case CreateOp(u, r, e) => Create(s, u, r, e)
    case SuspendOp(u, t, suspend) => Suspend(s, u, t, suspend)
    case StopOp(u, t) => Stop(s, u, t)
    case VisitOp(listed, now, buildings) => Visit(s, listed, now, buildings).0
    case CloseOp(listed, now) => CloseAll(s, listed, now)
  }

  ghost function Step(s: State, op: Op): State { if s.crashed then s else Act(s, op) }

  ghost function Run(s: State, ops: seq<Op>): State {
    if ops == [] then s else Step(Run(s, ops[..|ops| - 1]), ops[|ops| - 1])
  }

  // ----- Agreement of the database and the pool -----

  predicate Live(r: Row) { r.status == Running || r.status == Suspended }

  /** What database and pool say about one tag. */
  predicate AgreeAt(s: State, t: Tag) {
    && (t in s.pool.events <==> t in s.rows && Live(s.rows[t]))
    && (t in s.pool.handlers <==> t in s.pool.events)
    && (t in s.rows ==> s.rows[t].status != Closed)
    && (t in s.pool.events && t in s.rows && t in s.pool.handlers ==>
          var ev, r := s.pool.events[t], s.rows[t];
          && ev == Event(t, r.createdBy, r.capacity, r.finish, r.status)
          && s.pool.handlers[t] == if r.status == Suspended then SuspendPage else EventPages(t))
  }

  ghost predicate Agree(s: State) { forall t :: AgreeAt(s, t) }

  predicate SameAt(s: State, s': State, t: Tag) {
    && (t in s.rows <==> t in s'.rows) && (t in s.rows && t in s'.rows ==> s.rows[t] == s'.rows[t])
    && (t in s.pool.events <==> t in s'.pool.events)
    && (t in s.pool.events && t in s'.pool.events ==> s.pool.events[t] == s'.pool.events[t])
    && (t in s.pool.handlers <==> t in s'.pool.handlers)
    && (t in s.pool.handlers && t in s'.pool.handlers ==> s.pool.handlers[t] == s'.pool.handlers[t])
  }

  // Every step works on one tag at a time.
  lemma AgreeElsewhere(s: State, s': State, t: Tag)
    requires Agree(s) && AgreeAt(s', t) && forall k :: k != t ==> SameAt(s, s', k)
    ensures Agree(s')
  {
    forall k ensures AgreeAt(s', k) { assert k != t ==> AgreeAt(s, k) && SameAt(s, s', k); }
  }

  /** The request gets as far as writing a row for an event that starts at once: it is within the limits, the user
      has quota left, nothing is refused, a frontend is named, the start is a valid date less than half a day ahead, and
      the tag is valid and new to database and pool. */
  ghost predicate Inserts(s: State, u: User, r: Request, e: Surroundings) {
    && (r.vpn ==> r.capacity <= 253) && (u.np ==> r.capacity <= 40) && QuotaLeft(s.rows, u)
    && !e.refused && e.valid && ValidTag(r.tag) && r.frontends > 0
    && r.start.Some? && r.start.value != 0 && 2 * (r.start.value - e.now) < B.DAY
    && r.tag !in s.rows && r.tag !in s.pool.events
  }

  lemma InsertsIff(s: State, u: User, r: Request, e: Surroundings)
    ensures Inserts(s, u, r, e) <==> CreateOutcome(s, u, r, e) in {Started, CreationFailed, Crashed}
    ensures Inserts(s, u, r, e) ==>
              (CreateOutcome(s, u, r, e) == Started <==> r.capacity >= 0 && e.building == Complete)
  {
    if r.start.Some? { LessThanHalfADay(r.start.value, e.now); }
    hide DaysUntil;
  }

  /** Which reason a refused request is given: the first that applies, in this order. */
  lemma RefusedFor(s: State, u: User, r: Request, e: Surroundings)
    ensures var out := CreateOutcome(s, u, r, e);
      var tooLarge, tooMany := r.vpn && r.capacity > 253, u.np && r.capacity > 40;
      var dated := r.start.Some? && r.start.value != 0;
      && (out == CapacityExceeds <==> tooLarge)
      && (out == OutOfQuota <==> !tooLarge && tooMany)
      && (out == QuotaUsedUp <==> !tooLarge && !tooMany && u.np && B.Wrap32(Total(s.rows, u.name)) > 40)
      && (out == Refused <==> !tooLarge && !tooMany && QuotaLeft(s.rows, u) && e.refused)
      && (out == InvalidStart <==> !tooLarge && !tooMany && QuotaLeft(s.rows, u) && !e.refused && !dated)
      && (out == NotAvailableTag <==>
            !tooLarge && !tooMany && QuotaLeft(s.rows, u) && !e.refused && dated && r.tag in s.rows)
      && (out == NotBooked ==> 2 * (r.start.value - e.now) >= B.DAY)
      && (out == InvalidConfig ==> !e.valid || !ValidTag(r.tag) || r.frontends == 0)
      && (out == DuplicateEvent ==> e.valid && ValidTag(r.tag) && r.frontends > 0 && r.tag in s.pool.events)
      && (out !in {BookedIt, BookingCrashed, Started, CreationFailed, Crashed} ==> Create(s, u, r, e) == s)
  {
    if r.start.Some? { LessThanHalfADay(r.start.value, e.now); }
    hide DaysUntil, Total, ValidTag;
  }

  /** The request gets as far as bookEvent: like Inserts, but the start is at least half a day ahead, and neither the
      configuration nor the tag has been looked at. */
  ghost predicate Books(s: State, u: User, r: Request, e: Surroundings) {
    && (r.vpn ==> r.capacity <= 253) && (u.np ==> r.capacity <= 40) && QuotaLeft(s.rows, u)
    && !e.refused && r.tag !in s.rows
    && r.start.Some? && r.start.value != 0 && 2 * (r.start.value - e.now) >= B.DAY && r.finish.Some?
  }

  /** A booking is written exactly when it gets that far, names a frontend, and either covers no day or meets a time
      series with entries in which every day accepts. */
  lemma BooksIff(s: State, u: User, r: Request, e: Surroundings)
    ensures CreateOutcome(s, u, r, e) == BookedIt <==>
            && Books(s, u, r, e) && r.frontends > 0
            && (B.DayOf(r.finish.value) < B.DayOf(r.start.value)
                || (e.series != map[] && B.AllAccept(e.series, B.DaysOf(r.start.value, r.finish.value), r.capacity)))
    ensures CreateOutcome(s, u, r, e) == BookingCrashed <==> BookingPanics(s, u, r, e)
  {
    if r.start.Some? {
      LessThanHalfADay(r.start.value, e.now);
      if r.finish.Some? { B.FreeOnIff(e.series, r.start.value, r.finish.value, r.capacity); }
    }
    hide DaysUntil, B.AllAccept;
  }

  /** A booking ends the daemon when it covers a day and the time series has no entries, or when it names no frontend
      and every day is free. */
  ghost predicate BookingPanics(s: State, u: User, r: Request, e: Surroundings) {
    && Books(s, u, r, e)
    && ((e.series == map[] && B.DayOf(r.start.value) <= B.DayOf(r.finish.value))
        || (r.frontends == 0 && B.AllAccept(e.series, B.DaysOf(r.start.value, r.finish.value), r.capacity)))
  }

  /** All the ways in which a request for an event ends the daemon, from the request and what is known before it: a
      hub of negative capacity, an empty time series, and a booking without frontends. */
  lemma CreateCrashesIff(s: State, u: User, r: Request, e: Surroundings)
    requires !s.crashed
    ensures Create(s, u, r, e).crashed <==>
            (Inserts(s, u, r, e) && r.capacity < 0 && e.building != NotPrepared) || BookingPanics(s, u, r, e)
    ensures BookingPanics(s, u, r, e) ==> Create(s, u, r, e) == s.(crashed := true)
  {
    InsertsIff(s, u, r, e);
    BooksIff(s, u, r, e);
    hide Inserts, BookingPanics, Books;
  }

  lemma LessThanHalfADay(start: B.Time, now: B.Time)
    ensures DaysUntil(start, now) >= 1 <==> 2 * (start - now) >= B.DAY
  {
  }

  /** Creating keeps the agreement exactly unless a row is written for an event that cannot be built: because a step
      of its building fails or because its capacity is negative. */
  lemma CreateAgreesIff(s: State, u: User, r: Request, e: Surroundings)
    requires Agree(s)
    ensures Agree(Create(s, u, r, e)) <==> !(Inserts(s, u, r, e) && !Builds(r.capacity, e.building))
  {
    CrashAgrees(s);
    var out, s' := CreateOutcome(s, u, r, e), Create(s, u, r, e);
    assert AgreeAt(s, r.tag);
    InsertsIff(s, u, r, e);
    hide Inserts;
    if out in {BookedIt, Started, CreationFailed, Crashed} {
      CreateAppends(s, u, r, e);
      if out == BookedIt || out == Started {
        AgreeElsewhere(s, s', r.tag);
      } else {
        assert !AgreeAt(s', r.tag);
      }
    }
  }

  /** Nothing is overwritten: an event is only created under a tag that is in neither database nor pool. */
  lemma CreateAppends(s: State, u: User, r: Request, e: Surroundings)
    requires CreateOutcome(s, u, r, e) in {BookedIt, Started, CreationFailed, Crashed}
    ensures r.tag !in s.rows
    ensures CreateOutcome(s, u, r, e) != BookedIt ==> r.tag !in s.pool.events
    ensures forall k :: k != r.tag ==> SameAt(s, Create(s, u, r, e), k)
  {
  }

  /** The row of an event that starts at once: a capacity of 0 becomes 10, and a finish that is missing, invalid or
      already past becomes 15 days from now, so no event is overdue when it is created.  If the event can be built, it
      is in the pool under its tag and served. */
  lemma CreatedRow(s: State, u: User, r: Request, e: Surroundings)
    requires Inserts(s, u, r, e)
    ensures var s' := Create(s, u, r, e);
      && r.tag in s'.rows
      && s'.rows[r.tag] == Row(u.name, if r.capacity == 0 then 10 else r.capacity, r.start.value, s'.rows[r.tag].finish,
                               Running)
      && s'.rows[r.tag].finish >= e.now
      && s'.rows[r.tag].finish == (if r.finish.Some? && r.finish.value != 0 && r.finish.value >= e.now
                                   then r.finish.value else e.now + 15 * 24 * 60 * 60)
      && (CreateOutcome(s, u, r, e) == Started ==>
            var row := s'.rows[r.tag];
            && r.tag in s'.pool.events && r.tag in s'.pool.handlers
            && s'.pool.events[r.tag] == Event(r.tag, u.name, row.capacity, row.finish, Running)
            && s'.pool.handlers[r.tag] == EventPages(r.tag))
  {
    InsertsIff(s, u, r, e);
    assert r.start.Some?;
    hide Inserts, CreateOutcome, DaysUntil;
  }

  /** A booking is written as it was asked for, and only there. */
  lemma BookedAsAsked(s: State, u: User, r: Request, e: Surroundings)
    requires CreateOutcome(s, u, r, e) == BookedIt
    ensures r.start.Some? && r.finish.Some?
    ensures Create(s, u, r, e)
            == s.(rows := s.rows[r.tag := Row(u.name, r.capacity, r.start.value, r.finish.value, Booked)])
  {
  }

  lemma SuspendAgrees(s: State, u: User, t: Tag, suspend: bool)
    requires Agree(s)
    ensures Agree(Suspend(s, u, t, suspend))
  {
    if SuspendOutcome(s, u, t) == Done {
      assert AgreeAt(s, t);
      AgreeElsewhere(s, Suspend(s, u, t, suspend), t);
    }
  }

  lemma CloseAgrees(s: State, t: Tag)
    requires Agree(s)
    ensures Agree(Close(s, t))
  {
    assert AgreeAt(s, t);
    AgreeElsewhere(s, Close(s, t), t);
  }

  lemma StopAgrees(s: State, u: User, t: Tag)
    requires Agree(s)
    ensures Agree(Stop(s, u, t))
  {
    assert AgreeAt(s, t);
    match StopOutcome(s, u, t)
    case Stopped => CloseAgrees(s, t);
    case Dropped => AgreeElsewhere(s, Stop(s, u, t), t);
    case _ =>
  }

  /** A booked event is not in the pool yet, so starting it does not overwrite another. */
  lemma StartBookedAgrees(s: State, t: Tag)
    requires Agree(s) && t in s.rows && s.rows[t].status == Booked
    ensures t !in s.pool.events && Agree(StartBooked(s, t))
  {
    assert AgreeAt(s, t);
    AgreeElsewhere(s, StartBooked(s, t), t);
  }

  lemma CrashAgrees(s: State)
    requires Agree(s)
    ensures Agree(s.(crashed := true))
  {
    forall k ensures AgreeAt(s.(crashed := true), k) { assert AgreeAt(s, k); }
  }

  lemma {:induction false} VisitAgrees(s: State, listed: seq<Tag>, now: B.Time, buildings: Buildings)
    requires Agree(s)
    ensures Agree(Visit(s, listed, now, buildings).0)
    decreases |listed|
  {
    hide StartBooked, Agree;
    if listed != [] {
      var t := listed[0];
      if !Due(s, t, now) {
        VisitAgrees(s, listed[1..], now, buildings);
      } else if Panics(s.rows[t].capacity, BuildingOf(buildings, t)) {
        CrashAgrees(s);
      } else if BookingBuilds(s, t, buildings) {
        StartBookedAgrees(s, t);
        VisitAgrees(StartBooked(s, t), listed[1..], now, buildings);
      }
    }
  }

  lemma {:induction false} CloseAllAgrees(s: State, listed: seq<Tag>, now: B.Time)
    requires Agree(s)
    ensures Agree(CloseAll(s, listed, now))
    decreases |listed|
  {
    hide Close;
    if listed != [] {
      if Overdue(s, listed[0], now) { CloseAgrees(s, listed[0]); }
      CloseAllAgrees(if Overdue(s, listed[0], now) then Close(s, listed[0]) else s, listed[1..], now);
    }
  }

  /** Only an event that cannot be built after its row has been written breaks the agreement. */
  lemma StepAgreesIff(s: State, op: Op)
    requires Agree(s)
    ensures Agree(Step(s, op)) <==> !InsertsUnbuilt(s, op)
  {
    hide Create, Suspend, Stop, Visit, CloseAll, Agree, Inserts, Builds;
    match op
    case CreateOp(u, r, e) => CreateAgreesIff(s, u, r, e);
    case SuspendOp(u, t, suspend) => SuspendAgrees(s, u, t, suspend);
    case StopOp(u, t) => StopAgrees(s, u, t);
    case VisitOp(listed, now, buildings) => VisitAgrees(s, listed, now, buildings);
    case CloseOp(listed, now) => CloseAllAgrees(s, listed, now);
  }

  /** The step writes a row for an event that cannot be built. */
  ghost predicate InsertsUnbuilt(s: State, op: Op) {
    !s.crashed && op.CreateOp? && Inserts(s, op.u, op.r, op.e) && !Builds(op.r.capacity, op.e.building)
  }

  lemma Agreement(s: State)
    requires Agree(s)
    ensures forall t :: t in s.pool.events <==> t in s.rows && Live(s.rows[t])
    ensures s.pool.events.Keys == s.pool.handlers.Keys
    ensures forall t :: t in s.pool.handlers && t in s.rows ==>
              (s.pool.handlers[t] == SuspendPage <==> s.rows[t].status == Suspended)
  {
    forall t
      ensures t in s.pool.events <==> t in s.rows && Live(s.rows[t])
      ensures t in s.pool.handlers <==> t in s.pool.events
      ensures t in s.pool.handlers && t in s.rows ==>
                (s.pool.handlers[t] == SuspendPage <==> s.rows[t].status == Suspended)
    {
      assert AgreeAt(s, t);
    }
  }

  // ----- Events that were not built -----

  /** A running row without an event: what a failed creation leaves behind. */
  predicate Orphan(s: State, t: Tag) {
    t in s.rows && s.rows[t].status == Running && t !in s.pool.events
  }

  lemma FailedCreationLeavesOrphan(s: State, u: User, r: Request, e: Surroundings)
    requires Inserts(s, u, r, e) && !Builds(r.capacity, e.building)
    ensures Orphan(Create(s, u, r, e), r.tag)
  {
    InsertsIff(s, u, r, e);
    hide Inserts;
  }

  lemma {:induction false} VisitKeepsOrphan(s: State, listed: seq<Tag>, now: B.Time, buildings: Buildings, t: Tag)
    requires Orphan(s, t)
    ensures Orphan(Visit(s, listed, now, buildings).0, t)
    ensures Visit(s, listed, now, buildings).0.rows[t] == s.rows[t]
    decreases |listed|
  {
    if listed != [] {
      if !Due(s, listed[0], now) {
        VisitKeepsOrphan(s, listed[1..], now, buildings, t);
      } else if BookingBuilds(s, listed[0], buildings) {
        VisitKeepsOrphan(StartBooked(s, listed[0]), listed[1..], now, buildings, t);
      }
    }
  }

  lemma {:induction false} CloseAllKeepsOrphan(s: State, listed: seq<Tag>, now: B.Time, t: Tag)
    requires Orphan(s, t)
    ensures Orphan(CloseAll(s, listed, now), t) && CloseAll(s, listed, now).rows[t] == s.rows[t]
    decreases |listed|
  {
    if listed != [] {
      CloseAllKeepsOrphan(if Overdue(s, listed[0], now) then Close(s, listed[0]) else s, listed[1..], now, t);
    }
  }

  lemma StepKeepsOrphan(s: State, op: Op, t: Tag)
    requires Orphan(s, t)
    ensures Orphan(Step(s, op), t) && Step(s, op).rows[t] == s.rows[t]
  {
    hide Visit, CloseAll;
    match op
    case VisitOp(listed, now, buildings) => VisitKeepsOrphan(s, listed, now, buildings, t);
    case CloseOp(listed, now) => CloseAllKeepsOrphan(s, listed, now, t);
    case _ =>
  }

  /** No run ever closes an orphan.  Its tag can never be used again, it cannot be stopped or suspended by anyone,
      and its capacity counts against its creator's quota for good. */
  lemma {:induction false} OrphanStaysForEver(s: State, ops: seq<Op>, t: Tag)
    requires Orphan(s, t)
    ensures Orphan(Run(s, ops), t) && Run(s, ops).rows[t] == s.rows[t]
    ensures forall u :: StopOutcome(Run(s, ops), u, t) == if ValidTag(t) then UnknownEvent else InvalidTag
    ensures forall u :: SuspendOutcome(Run(s, ops), u, t) == NoSuchEvent
    ensures forall u, r: Request, e :: r.tag == t ==>
              CreateOutcome(Run(s, ops), u, r, e) !in {BookedIt, Started, CreationFailed, Crashed}
  {
    if ops != [] {
      OrphanStaysForEver(s, ops[..|ops| - 1], t);
      StepKeepsOrphan(Run(s, ops[..|ops| - 1]), ops[|ops| - 1], t);
    }
    hide Run;
  }

  // ----- Suspending, visiting, closing -----

  /** Resuming what was suspended restores database and pool. */
  lemma ResumeUndoesSuspend(s: State, u: User, t: Tag)
    requires Agree(s) && t in s.rows && s.rows[t].status == Running && (!u.np || s.rows[t].createdBy == u.name)
    ensures SuspendOutcome(s, u, t) == Done
    ensures Suspend(s, u, t, true).rows[t].status == Suspended
    ensures Suspend(Suspend(s, u, t, true), u, t, false) == s
  {
    assert AgreeAt(s, t);
    var a := Suspend(s, u, t, true);
    var b := Suspend(a, u, t, false);
    assert b.rows == s.rows && b.pool.events == s.pool.events && b.pool.handlers == s.pool.handlers;
  }

  /** Stopping closes a running or suspended event exactly for an unrestricted user and for its owner, and archives its
      row; for any other user it does nothing. */
  lemma StopClosesIff(s: State, u: User, t: Tag)
    requires Agree(s) && ValidTag(t) && t in s.rows
    requires s.rows[t].status == Running || s.rows[t].status == Suspended
    ensures t !in Stop(s, u, t).rows <==> !u.np || s.rows[t].createdBy == u.name
    ensures StopOutcome(s, u, t) == if t in Stop(s, u, t).rows then NoPrivilege else Stopped
    ensures var s' := Stop(s, u, t);
      if t in s'.rows then s' == s
      else
        && t !in s'.pool.events && t !in s'.pool.handlers && (forall k :: k != t ==> SameAt(s, s', k))
        && s'.archive == s.archive + [(t, s.rows[t].(status := Closed))] && s'.crashed == s.crashed
  {
    assert AgreeAt(s, t);
  }

  /** An unrestricted user and the owner can suspend and resume an event in either state, and nobody else can change
      it: afterwards row and event have the status asked for, and the page that goes with it is served. */
  lemma SuspendSetsIff(s: State, u: User, t: Tag, suspend: bool)
    requires Agree(s) && t in s.rows
    requires s.rows[t].status == Running || s.rows[t].status == Suspended
    ensures var s' := Suspend(s, u, t, suspend);
      if !u.np || s.rows[t].createdBy == u.name then
        var status := if suspend then Suspended else Running;
        && SuspendOutcome(s, u, t) == Done
        && t in s'.rows && s'.rows[t] == s.rows[t].(status := status)
        && t in s'.pool.events && s'.pool.events[t] == s.pool.events[t].(status := status)
        && t in s'.pool.handlers && s'.pool.handlers[t] == (if suspend then SuspendPage else EventPages(t))
        && (forall k :: k != t ==> SameAt(s, s', k)) && s'.archive == s.archive && s'.crashed == s.crashed
      else s' == s && SuspendOutcome(s, u, t) == NotOwner
  {
    assert AgreeAt(s, t);
  }

  /** Of a tag without a live event nothing can be suspended or resumed. */
  lemma SuspendNeedsLive(s: State, u: User, t: Tag, suspend: bool)
    requires Agree(s) && !(t in s.rows && Live(s.rows[t]))
    ensures Suspend(s, u, t, suspend) == s && SuspendOutcome(s, u, t) == NoSuchEvent
  {
    assert AgreeAt(s, t);
  }

  // What is put into the archive stays there.
  lemma ArchivedLater(a: seq<(Tag, Row)>, b: seq<(Tag, Row)>, c: seq<(Tag, Row)>)
    requires a <= b <= c
    ensures a <= c && b[|a|..] <= c[|a|..]
    ensures forall x :: x in b[|a|..] || x in c[|b|..] ==> x in c[|a|..]
  {
    assert c[|a|..] == b[|a|..] + c[|b|..];
  }

  /** closeEvents closes exactly the running and suspended events whose finish has passed, puts their rows into the
      archive as closed, and leaves the others as they are. */
  lemma {:induction false} CloseAllClosesOverdue(s: State, listed: seq<Tag>, now: B.Time, t: Tag)
    requires Agree(s)
    ensures var s' := CloseAll(s, listed, now);
      && s.archive <= s'.archive
      && if t in listed && t in s.rows && Live(s.rows[t]) && s.rows[t].finish <= now then
           && t !in s'.rows && t !in s'.pool.events && t !in s'.pool.handlers
           && (t, s.rows[t].(status := Closed)) in s'.archive[|s.archive|..]
         else SameAt(s, s', t)
    decreases |listed|
  {
    if listed != [] {
      var first, rest := listed[0], listed[1..];
      var next := if Overdue(s, first, now) then Close(s, first) else s;
      if Overdue(s, first, now) { CloseAgrees(s, first); }
      CloseAllClosesOverdue(next, rest, now, t);
      ArchivedLater(s.archive, next.archive, CloseAll(s, listed, now).archive);
      assert t in listed <==> t == first || t in rest;
      assert AgreeAt(s, t);
    }
  }

  /** The tag is that of a booked event whose start has come. */
  predicate Starting(s: State, t: Tag, now: B.Time) {
    t in s.rows && s.rows[t].status == Booked && s.rows[t].start <= now
  }

  /** Such an event can be built: its capacity is not negative, and no step of its building fails. */
  predicate Buildable(s: State, t: Tag, buildings: Buildings)
    requires t in s.rows
  {
    s.rows[t].capacity >= 0 && (t in buildings ==> buildings[t] == Complete)
  }

  /** Every booking of the list up to place `i` that is due can be built. */
  predicate BuildableUpTo(s: State, listed: seq<Tag>, now: B.Time, buildings: Buildings, i: nat)
    requires i < |listed|
  {
    forall j :: 0 <= j <= i && Starting(s, listed[j], now) ==> Buildable(s, listed[j], buildings)
  }

  /** visitBookedEvents starts exactly the due events before the first one that cannot be built: that one blocks all
      later ones, at every visit. */
  lemma {:induction false} VisitStartsDue(s: State, listed: seq<Tag>, now: B.Time, buildings: Buildings, i: nat)
    requires i < |listed| && forall j, k :: 0 <= j < k < |listed| ==> listed[j] != listed[k]
    ensures var s', t := Visit(s, listed, now, buildings).0, listed[i];
      if t in s.rows && s.rows[t].status == Booked && s.rows[t].start <= now
         && BuildableUpTo(s, listed, now, buildings, i)
      then
        var r := s.rows[t];
        && t in s'.rows && s'.rows[t] == Row(r.createdBy, r.capacity, r.start, r.finish, Running)
        && t in s'.pool.events && s'.pool.events[t] == Event(t, r.createdBy, r.capacity, r.finish, Running)
        && t in s'.pool.handlers && s'.pool.handlers[t] == EventPages(t)
      else SameAt(s, s', t)
    decreases |listed|
  {
    var first, rest, t := listed[0], listed[1..], listed[i];
    if !Due(s, first, now) {
      if i > 0 {
        VisitStartsDue(s, rest, now, buildings, i - 1);
        UpToShift(s, s, listed, now, buildings, i);
      } else {
        VisitLeavesOthers(s, rest, now, buildings, t);
      }
    } else if BookingBuilds(s, first, buildings) {
      var next := StartBooked(s, first);
      if i > 0 {
        assert forall j :: 0 <= j < |rest| ==> rest[j] != first;
        VisitStartsDue(next, rest, now, buildings, i - 1);
        UpToShift(s, next, listed, now, buildings, i);
      } else {
        VisitLeavesOthers(next, rest, now, buildings, t);
      }
    } else {
      assert !BuildableUpTo(s, listed, now, buildings, i);
    }
  }

  lemma UpToShift(s: State, next: State, listed: seq<Tag>, now: B.Time, buildings: Buildings, i: nat)
    requires 0 < i < |listed|
    requires Starting(s, listed[0], now) ==> Buildable(s, listed[0], buildings)
    requires next == s || (listed[0] in s.rows && next == StartBooked(s, listed[0]) && listed[0] !in listed[1..])
    ensures BuildableUpTo(s, listed, now, buildings, i) <==> BuildableUpTo(next, listed[1..], now, buildings, i - 1)
  {
    var rest := listed[1..];
    forall j | 0 <= j < |rest|
      ensures Starting(next, rest[j], now) <==> Starting(s, listed[j + 1], now)
      ensures Starting(s, listed[j + 1], now) ==>
                (Buildable(next, rest[j], buildings) <==> Buildable(s, listed[j + 1], buildings))
    {
      assert rest[j] == listed[j + 1] && rest[j] in rest;
    }
    if BuildableUpTo(next, rest, now, buildings, i - 1) {
      forall j | 0 <= j <= i && Starting(s, listed[j], now) ensures Buildable(s, listed[j], buildings) {
        if j > 0 { assert rest[j - 1] == listed[j]; }
      }
    }
    if BuildableUpTo(s, listed, now, buildings, i) {
      forall j | 0 <= j <= i - 1 && Starting(next, rest[j], now) ensures Buildable(next, rest[j], buildings) {
        assert Starting(s, listed[j + 1], now);
      }
    }
  }

  lemma {:induction false} VisitLeavesOthers(s: State, listed: seq<Tag>, now: B.Time, buildings: Buildings, t: Tag)
    requires t !in listed || !Due(s, t, now)
    ensures SameAt(s, Visit(s, listed, now, buildings).0, t)
    decreases |listed|
  {
    if listed != [] {
      if !Due(s, listed[0], now) {
        VisitLeavesOthers(s, listed[1..], now, buildings, t);
      } else if BookingBuilds(s, listed[0], buildings) {
        VisitLeavesOthers(StartBooked(s, listed[0]), listed[1..], now, buildings, t);
      }
    }
  }

  /** The first due booking that cannot be built panics: its capacity is negative and its hub is reached. */
  ghost predicate PanicsAt(s: State, listed: seq<Tag>, now: B.Time, buildings: Buildings, i: nat) {
    && i < |listed| && Starting(s, listed[i], now) && s.rows[listed[i]].capacity < 0
    && !(listed[i] in buildings && buildings[listed[i]] == NotPrepared)
    && (i > 0 ==> BuildableUpTo(s, listed, now, buildings, i - 1))
  }

  /** A visit ends the daemon exactly when the first due booking that cannot be built has a negative capacity. */
  lemma {:induction false} VisitCrashesIff(s: State, listed: seq<Tag>, now: B.Time, buildings: Buildings)
    requires !s.crashed && forall j, k :: 0 <= j < k < |listed| ==> listed[j] != listed[k]
    ensures Visit(s, listed, now, buildings).0.crashed <==> exists i: nat :: PanicsAt(s, listed, now, buildings, i)
    ensures Visit(s, listed, now, buildings).0.crashed <==> Visit(s, listed, now, buildings).1 == VisitCrashed
    decreases |listed|
  {
    if listed != [] {
      var first, rest := listed[0], listed[1..];
      if Due(s, first, now) && !BookingBuilds(s, first, buildings) {
        assert Panics(s.rows[first].capacity, BuildingOf(buildings, first)) <==> PanicsAt(s, listed, now, buildings, 0);
        forall i: nat | 0 < i < |listed| ensures !PanicsAt(s, listed, now, buildings, i) {
          assert !BuildableUpTo(s, listed, now, buildings, i - 1);
        }
      } else {
        var next := if Due(s, first, now) then StartBooked(s, first) else s;
        assert forall j :: 0 <= j < |rest| ==> rest[j] == listed[j + 1] != first;
        VisitCrashesIff(next, rest, now, buildings);
        assert !PanicsAt(s, listed, now, buildings, 0);
        forall i: nat | 0 < i < |listed|
          ensures PanicsAt(s, listed, now, buildings, i) <==> PanicsAt(next, rest, now, buildings, i - 1)
        {
          PanicsShift(s, next, listed, now, buildings, i);
        }
        assert forall i: nat :: PanicsAt(next, rest, now, buildings, i) ==> PanicsAt(s, listed, now, buildings, i + 1);
      }
    }
  }

  lemma PanicsShift(s: State, next: State, listed: seq<Tag>, now: B.Time, buildings: Buildings, i: nat)
    requires 0 < i < |listed|
    requires Due(s, listed[0], now) ==> BookingBuilds(s, listed[0], buildings)
    requires next == s || (listed[0] in s.rows && next == StartBooked(s, listed[0]) && listed[0] !in listed[1..])
    ensures PanicsAt(s, listed, now, buildings, i) <==> PanicsAt(next, listed[1..], now, buildings, i - 1)
  {
    assert listed[1..][i - 1] == listed[i] && listed[i] in listed[1..];
    if i > 1 { UpToShift(s, next, listed, now, buildings, i - 1); }
  }

  /** When a visit succeeds. */
  lemma {:induction false} VisitSucceedsIff(s: State, listed: seq<Tag>, now: B.Time, buildings: Buildings)
    requires forall j, k :: 0 <= j < k < |listed| ==> listed[j] != listed[k]
    ensures Visit(s, listed, now, buildings).1 == Visited <==>
            forall i :: 0 <= i < |listed| && Starting(s, listed[i], now) ==> Buildable(s, listed[i], buildings)
    decreases |listed|
  {
    if listed != [] {
      var first, rest := listed[0], listed[1..];
      assert forall i :: 0 <= i < |rest| ==> rest[i] == listed[i + 1] != first;
      assert forall i :: 0 < i < |listed| ==> listed[i] == rest[i - 1];
      if !Due(s, first, now) {
        VisitSucceedsIff(s, rest, now, buildings);
      } else if BookingBuilds(s, first, buildings) {
        VisitSucceedsIff(StartBooked(s, first), rest, now, buildings);
      }
    }
  }

  /** A booking is written under any tag, but only a valid one can be stopped, and only if it is in the database. */
  lemma InvalidTagNeverStops(s: State, u: User, t: Tag)
    ensures StopOutcome(s, u, t) == InvalidTag <==> !ValidTag(t)
    ensures StopOutcome(s, u, t) == StatusUnknown <==> ValidTag(t) && t !in s.rows
    ensures !ValidTag(t) || t !in s.rows ==> Stop(s, u, t) == s
  {
  }

  /** An unrestricted user drops every booking; a restricted one drops the booking asked for exactly when some booking
      is the user's own, whosever it is.  Nothing else changes, and nothing is archived. */
  lemma DropsBookingIff(s: State, u: User, t: Tag)
    requires t in s.rows && s.rows[t].status == Booked && ValidTag(t)
    ensures t !in Stop(s, u, t).rows <==>
            !u.np || exists k :: k in s.rows && s.rows[k].status == Booked && s.rows[k].createdBy == u.name
    ensures Stop(s, u, t) == if t in Stop(s, u, t).rows then s else s.(rows := s.rows - {t})
    ensures StopOutcome(s, u, t) == if t in Stop(s, u, t).rows then NothingDropped else Dropped
    ensures s.rows[t].createdBy == u.name ==> t !in Stop(s, u, t).rows
  {
    if k :| k in s.rows && s.rows[k].status == Booked && s.rows[k].createdBy == u.name {
      assert IsBooking(s.rows[k], u.name);
    }
    if s.rows[t].createdBy == u.name { assert IsBooking(s.rows[t], u.name); }
  }

  // ----- Tags -----

  predicate TagChars(t: string) { forall i :: 0 <= i < |t| ==> t[i] in "abcdefghijklmnopqrstuvwxyz0123456789" }

  /** A tag is valid exactly if it is a lower-case letter or a digit, then such characters and hyphens, then a letter or
      digit again. */
  lemma ValidTagIff(t: Tag)
    ensures ValidTag(t) <==>
            exists a, m, b :: t == [a] + m + [b] && TagChars([a]) && TagChars([b])
                              && forall i :: 0 <= i < |m| ==> m[i] == '-' || TagChars([m[i]])
  {
    AlphaNumericIs();
    hide AlphaNumeric, TagChars;
    if ValidTag(t) {
      var m := t[1..|t| - 1];
      assert t == [t[0]] + m + [t[|t| - 1]];
    }
  }

  lemma AlphaNumericIs()
    ensures forall c :: AlphaNumeric(c) <==> TagChars([c])
  {
    forall c ensures AlphaNumeric(c) <==> c in "abcdefghijklmnopqrstuvwxyz0123456789" { AlphaNumericAt(c); }
    hide AlphaNumeric;
    assert forall c: char :: [c][0] == c;
  }

  lemma AlphaNumericAt(c: char)
    ensures AlphaNumeric(c) <==> c in "abcdefghijklmnopqrstuvwxyz0123456789"
  {
    var s := "abcdefghijklmnopqrstuvwxyz0123456789";
    assert forall i :: 0 <= i < 26 ==> s[i] as int == 'a' as int + i;
    assert forall i :: 26 <= i < 36 ==> s[i] as int == '0' as int + i - 26;
    if 'a' <= c <= 'z' { assert s[c as int - 'a' as int] == c; }
    if '0' <= c <= '9' { assert s[c as int - '0' as int + 26] == c; }
  }

  // ----- Booking and dropping in runs -----

  /** A request for a booking of one day, a day ahead of the clock, when nothing has been promised for that day. */
  function Book(name: UserName, tag: Tag, capacity: int): Op {
    CreateOp(User(name, true), Request(tag, capacity, false, Some(2 * B.DAY), Some(2 * B.DAY), 1),
             Surroundings(B.DAY, false, true, map[0 := 0], Complete))
  }

  function BookedRow(name: UserName, capacity: int): Row { Row(name, capacity, 2 * B.DAY, 2 * B.DAY, Booked) }

  lemma BookPasses(s: State, name: UserName, tag: Tag, capacity: int)
    requires tag !in s.rows && QuotaLeft(s.rows, User(name, true))
    requires -B.MAX32 <= capacity <= NP_USER_MAX_LABS
    ensures var op := Book(name, tag, capacity);
      && CreateOutcome(s, op.u, op.r, op.e) == BookedIt
      && Create(s, op.u, op.r, op.e) == s.(rows := s.rows[tag := BookedRow(name, capacity)])
  {
    var op := Book(name, tag, capacity);
    LessThanHalfADay(2 * B.DAY, B.DAY);
    var series := op.e.series;
    assert series == map[0 := 0] && 0 in series && series != map[];
    assert 0 !in B.DaysOf(2 * B.DAY, 2 * B.DAY);
    assert B.AllAccept(series, B.DaysOf(2 * B.DAY, 2 * B.DAY), capacity);
    hide DaysUntil, B.AllAccept, QuotaLeft;
    assert CreateOutcome(s, op.u, op.r, op.e) == BookedIt;
  }

  lemma BookWrites(s: State, name: UserName, tag: Tag, capacity: int)
    requires !s.crashed && tag !in s.rows && QuotaLeft(s.rows, User(name, true))
    requires -B.MAX32 <= capacity <= NP_USER_MAX_LABS
    ensures Step(s, Book(name, tag, capacity)) == s.(rows := s.rows[tag := BookedRow(name, capacity)])
  {
    BookPasses(s, name, tag, capacity);
    hide Create, CreateOutcome;
  }

  lemma RunStep(s: State, ops: seq<Op>, op: Op)
    ensures Run(s, ops + [op]) == Step(Run(s, ops), op)
  {
    assert (ops + [op])[..|ops|] == ops;
  }

  /** A member with a booking of his own can drop another's. */
  lemma AnothersBookingCanBeDropped() returns (ops: seq<Op>)
    ensures var s := Run(Nothing(), ops);
      "yy" in s.rows && s.rows["yy"].createdBy == "o" && s.rows["yy"].status == Booked
      && "yy" !in Stop(s, User("m", true), "yy").rows
  {
    TotalOfNone("m");
    TotalOfNone("o");
    hide Step, Total, Book;
    var a, b := Book("m", "xx", 1), Book("o", "yy", 1);
    ops := [a] + [b];
    RunStep(Nothing(), [], a);
    RunStep(Nothing(), [a], b);
    assert [] + [a] == [a];
    BookWrites(Nothing(), "m", "xx", 1);
    var s := Step(Nothing(), a);
    OthersDoNotCount(s, "o", "xx");
    BookWrites(s, "o", "yy", 1);
    var t := Step(s, b);
    assert IsBooking(t.rows["xx"], "m");
    DropsBookingIff(t, User("m", true), "yy");
  }

  lemma OthersDoNotCount(s: State, name: UserName, t: Tag)
    requires s.rows.Keys == {t} && s.rows[t].createdBy != name
    ensures Total(s.rows, name) == 0
  {
    TotalSplit(s.rows, name, t);
    assert s.rows - {t} == map[];
    TotalOfNone(name);
  }

  // ----- Runs -----

  /** Some step of the run wrote a row for an event that could not be built. */
  ghost predicate SomeInsertUnbuilt(s: State, ops: seq<Op>) {
    ops != [] && (var most, op := ops[..|ops| - 1], ops[|ops| - 1];
      SomeInsertUnbuilt(s, most) || InsertsUnbuilt(Run(s, most), op))
  }

  lemma {:induction false} FailureLeavesOrphan(s: State, ops: seq<Op>) returns (t: Tag)
    requires SomeInsertUnbuilt(s, ops)
    ensures Orphan(Run(s, ops), t)
  {
    var most, op := ops[..|ops| - 1], ops[|ops| - 1];
    hide Step, Inserts;
    if SomeInsertUnbuilt(s, most) {
      t := FailureLeavesOrphan(s, most);
      StepKeepsOrphan(Run(s, most), op, t);
    } else {
      t := op.r.tag;
      InsertLeavesOrphan(Run(s, most), op);
    }
  }

  lemma InsertLeavesOrphan(s: State, op: Op)
    requires InsertsUnbuilt(s, op)
    ensures Orphan(Step(s, op), op.r.tag)
  {
    FailedCreationLeavesOrphan(s, op.u, op.r, op.e);
    hide Create, Inserts;
  }

  /** Database and pool agree after a run exactly when no step of it wrote a row for an event that could not be
      built. */
  lemma {:induction false} RunAgreesIff(s: State, ops: seq<Op>)
    requires Agree(s)
    ensures Agree(Run(s, ops)) <==> !SomeInsertUnbuilt(s, ops)
  {
    hide Step, InsertsUnbuilt;
    if SomeInsertUnbuilt(s, ops) {
      var t := FailureLeavesOrphan(s, ops);
      assert !AgreeAt(Run(s, ops), t);
    } else if ops != [] {
      var most := ops[..|ops| - 1];
      RunAgreesIff(s, most);
      StepAgreesIff(Run(s, most), ops[|ops| - 1]);
    }
  }

  /** Over every run in which new events can be built, the pool holds exactly the events that are running or
      suspended, `events` and `handlers` have the same keys, and the suspend page stands for exactly the suspended
      ones. */
  lemma RunAgrees(s: State, ops: seq<Op>)
    requires Agree(s)
    requires forall i :: 0 <= i < |ops| && ops[i].CreateOp? ==> Builds(ops[i].r.capacity, ops[i].e.building)
    ensures var s' := Run(s, ops);
      && (forall t :: t in s'.pool.events <==> t in s'.rows && Live(s'.rows[t]))
      && s'.pool.events.Keys == s'.pool.handlers.Keys
      && (forall t :: t in s'.pool.handlers && t in s'.rows ==>
            (s'.pool.handlers[t] == SuspendPage <==> s'.rows[t].status == Suspended))
  {
    NothingUnbuilt(s, ops);
    RunAgreesIff(s, ops);
    Agreement(Run(s, ops));
  }

  lemma {:induction false} NothingUnbuilt(s: State, ops: seq<Op>)
    requires forall i :: 0 <= i < |ops| && ops[i].CreateOp? ==> Builds(ops[i].r.capacity, ops[i].e.building)
    ensures !SomeInsertUnbuilt(s, ops)
  {
    hide Run, Inserts, Builds;
    if ops != [] {
      NothingUnbuilt(s, ops[..|ops| - 1]);
      assert ops[|ops| - 1].CreateOp? ==> Builds(ops[|ops| - 1].r.capacity, ops[|ops| - 1].e.building);
    }
  }

  // ----- The archive -----

  /** The event with this row has been closed and archived since, or it is still live with the same data. */
  predicate LiveOrArchived(s: State, t: Tag, r: Row) {
    (t in s.rows && Live(s.rows[t]) && s.rows[t].(status := Closed) == r) || (t, r) in s.archive
  }

  lemma CloseKeeps(s: State, k: Tag, t: Tag, r: Row)
    requires LiveOrArchived(s, t, r)
    ensures LiveOrArchived(Close(s, k), t, r)
  {
    var s' := Close(s, k);
    if (t, r) in s.archive {
      var i :| 0 <= i < |s.archive| && s.archive[i] == (t, r);
      assert s'.archive[i] == (t, r);
    } else if k == t {
      assert s'.archive[|s.archive|] == (t, r);
    }
  }

  lemma {:induction false} VisitKeeps(s: State, listed: seq<Tag>, now: B.Time, buildings: Buildings, t: Tag, r: Row)
    requires LiveOrArchived(s, t, r)
    ensures LiveOrArchived(Visit(s, listed, now, buildings).0, t, r)
    decreases |listed|
  {
    if listed != [] {
      if !Due(s, listed[0], now) {
        VisitKeeps(s, listed[1..], now, buildings, t, r);
      } else if BookingBuilds(s, listed[0], buildings) {
        VisitKeeps(StartBooked(s, listed[0]), listed[1..], now, buildings, t, r);
      }
    }
  }

  lemma {:induction false} CloseAllKeeps(s: State, listed: seq<Tag>, now: B.Time, t: Tag, r: Row)
    requires LiveOrArchived(s, t, r)
    ensures LiveOrArchived(CloseAll(s, listed, now), t, r)
    decreases |listed|
  {
    hide Close, LiveOrArchived;
    if listed != [] {
      if Overdue(s, listed[0], now) { CloseKeeps(s, listed[0], t, r); }
      CloseAllKeeps(if Overdue(s, listed[0], now) then Close(s, listed[0]) else s, listed[1..], now, t, r);
    }
  }

  lemma CreateKeeps(s: State, u: User, r: Request, e: Surroundings, t: Tag, row: Row)
    requires LiveOrArchived(s, t, row)
    ensures LiveOrArchived(Create(s, u, r, e), t, row)
  {
    if CreateOutcome(s, u, r, e) in {BookedIt, Started, CreationFailed, Crashed} { CreateAppends(s, u, r, e); }
  }

  lemma StepKeepsLiveOrArchived(s: State, op: Op, t: Tag, r: Row)
    requires LiveOrArchived(s, t, r)
    ensures LiveOrArchived(Step(s, op), t, r)
  {
    hide Create, Visit, CloseAll, Close;
    match op
    case CreateOp(u, q, e) => CreateKeeps(s, u, q, e, t, r);
    case SuspendOp(u, k, suspend) =>
    case StopOp(u, k) => CloseKeeps(s, k, t, r);
    case VisitOp(listed, now, buildings) => VisitKeeps(s, listed, now, buildings, t, r);
    case CloseOp(listed, now) => CloseAllKeeps(s, listed, now, t, r);
  }

  /** No event vanishes: over every run, an event that is running or suspended either stays in the database with its
      owner, capacity and dates, or its row, closed, is in the archive. */
  lemma {:induction false} NoEventVanishes(s: State, ops: seq<Op>, t: Tag)
    requires t in s.rows && Live(s.rows[t])
    ensures LiveOrArchived(Run(s, ops), t, s.rows[t].(status := Closed))
  {
    hide Step;
    if ops != [] {
      NoEventVanishes(s, ops[..|ops| - 1], t);
      hide LiveOrArchived;
      StepKeepsLiveOrArchived(Run(s, ops[..|ops| - 1]), ops[|ops| - 1], t, s.rows[t].(status := Closed));
    }
  }
}
