/** Requests for events that overlap: CreateEvent checks quota and tag first and writes later, and nothing keeps other
    handlers out in between. */
module Handlers {
  import opened Wrappers
  import opened EventPools
  import opened Events
  import opened EventLaws
  import opened Quota
  import B = Booking

  /** A request that has passed its checks, with what it is going to write. */
  datatype Pending = Pending(u: User, r: Request, e: Surroundings, outcome: CreateResult)

  datatype Server = Server(s: State, pending: map<nat, Pending>)

  datatype Move = Check(k: nat, u: User, r: Request, e: Surroundings) | Write(k: nat) | Other(op: Op)

  predicate Writes(outcome: CreateResult) { outcome in {BookedIt, Started, CreationFailed, Crashed} }

  /** A request that is refused is over with its checks; any other writes in a second step. */
  ghost function Do(h: Server, m: Move): Server {
    if h.s.crashed then h
    else
      match m
      case Check(k, u, r, e) =>
        var outcome := CreateOutcome(h.s, u, r, e);
        if k in h.pending then h
        else if Writes(outcome) then h.(pending := h.pending[k := Pending(u, r, e, outcome)])
        else h.(s := Effect(h.s, u, r, e, outcome))
      case Write(k) => if k in h.pending then Server(Written(h.s, h.pending[k]), h.pending - {k}) else h
      case Other(op) => if op.CreateOp? then h else h.(s := Step(h.s, op))
  }

  function Written(s: State, p: Pending): State { Effect(s, p.u, p.r, p.e, p.outcome) }

  ghost function DoAll(ms: seq<Move>): Server {
    if ms == [] then Server(Nothing(), map[]) else Do(DoAll(ms[..|ms| - 1]), ms[|ms| - 1])
  }

  lemma DoOne(ms: seq<Move>, m: Move)
    ensures DoAll(ms + [m]) == Do(DoAll(ms), m)
  {
    assert (ms + [m])[..|ms|] == ms;
  }

  /** Alone, the two steps of a request are CreateEvent. */
  lemma CheckThenWriteIsCreate(h: Server, k: nat, u: User, r: Request, e: Surroundings)
    requires !h.s.crashed && k !in h.pending
    ensures Do(Do(h, Check(k, u, r, e)), Write(k)) == Server(Create(h.s, u, r, e), h.pending)
  {
    var after := Do(h, Check(k, u, r, e));
    if Writes(CreateOutcome(h.s, u, r, e)) { assert after.pending - {k} == h.pending; }
    hide CreateOutcome;
  }

  // ----- The quota -----

  /** The requests of a user that are between check and write. */
  function Of(pending: map<nat, Pending>, user: UserName): set<nat> {
    set k | k in pending && pending[k].u.name == user
  }

  ghost predicate ProperMoves(ms: seq<Move>, user: UserName) {
    forall i :: 0 <= i < |ms| && ms[i].Check? && ms[i].u.name == user ==> ms[i].u.np && ms[i].r.capacity >= 0
  }

  /** At no time are more than `most` requests of the user between check and write. */
  ghost predicate AtMost(ms: seq<Move>, user: UserName, most: nat) {
    |Of(DoAll(ms).pending, user)| <= most && (ms == [] || AtMost(ms[..|ms| - 1], user, most))
  }

  /** The row a pending request is going to write. */
  function RowOf(p: Pending): Row {
    if p.outcome == BookedIt then Row(p.u.name, p.r.capacity, Parsed(p.r.start), Parsed(p.r.finish), Booked)
    else NewRow(p.u, p.r, p.e.now)
  }

  predicate Modest(p: Pending, user: UserName) {
    Writes(p.outcome) && 0 <= Share(RowOf(p), user) <= NP_USER_MAX_LABS
  }

  /** How much a restricted user can come to hold. */
  function Reach(most: nat): int { if most == 0 then 0 else NP_USER_MAX_LABS * (most + 1) }

  /** What the user holds, and what the pending requests may add. */
  ghost predicate Accounted(h: Server, user: UserName, most: nat) {
    && Holds(h.s, user, Reach(most) - NP_USER_MAX_LABS * |Of(h.pending, user)|)
    && forall k :: k in h.pending ==> Modest(h.pending[k], user)
  }

  lemma PutKeepsHolds(s: State, user: UserName, bound: int, t: Tag, r: Row)
    requires Holds(s, user, bound) && Share(r, user) >= 0
    ensures NonNegative(s.rows[t := r], user) && Total(s.rows[t := r], user) <= bound + Share(r, user)
  {
    var after := s.rows[t := r];
    TotalSplit(after, user, t);
    assert after - {t} == s.rows - {t};
    if t in s.rows { TotalSplit(s.rows, user, t); } else { assert s.rows - {t} == s.rows; }
  }

  lemma WriteKeepsAccounted(h: Server, user: UserName, most: nat, k: nat)
    requires Accounted(h, user, most) && k in h.pending && !h.s.crashed
    ensures Accounted(Do(h, Write(k)), user, most)
  {
    var p, after := h.pending[k], Do(h, Write(k));
    assert after.s.rows == h.s.rows[p.r.tag := RowOf(p)];
    OfLess(h.pending, k, user);
    PutKeepsHolds(h.s, user, Reach(most) - NP_USER_MAX_LABS * |Of(h.pending, user)|, p.r.tag, RowOf(p));
  }

  lemma CheckKeepsAccounted(h: Server, user: UserName, most: nat, m: Move)
    requires Accounted(h, user, most) && m.Check? && !h.s.crashed && Reach(most) <= B.MAX32
    requires |Of(Do(h, m).pending, user)| <= most
    requires m.u.name == user ==> m.u.np && m.r.capacity >= 0
    ensures Accounted(Do(h, m), user, most)
  {
    var after, outcome := Do(h, m), CreateOutcome(h.s, m.u, m.r, m.e);
    if m.k !in h.pending && Writes(outcome) {
      var p := Pending(m.u, m.r, m.e, outcome);
      assert after == h.(pending := h.pending[m.k := p]);
      PassedIsModest(h.s, user, p);
      OfMore(h.pending, m.k, p, user);
      if m.u.name == user {
        TotalNonNegative(h.s.rows, user);
        PassedLeavesQuota(h.s, user, p);
        Product(|Of(after.pending, user)|, most);
      }
      hide Do, CreateOutcome, Effect, Of, Modest, Reach, Total;
    } else {
      assert after.pending == h.pending && after.s.rows == h.s.rows;
    }
  }

  lemma Product(n: nat, most: nat)
    requires 0 < n <= most
    ensures NP_USER_MAX_LABS <= Reach(most) - NP_USER_MAX_LABS * n
  {
  }

  lemma PassedIsModest(s: State, user: UserName, p: Pending)
    requires p.outcome == CreateOutcome(s, p.u, p.r, p.e) && Writes(p.outcome)
    requires p.u.name == user ==> p.u.np && p.r.capacity >= 0
    ensures Modest(p, user)
  {
  }

  lemma PassedLeavesQuota(s: State, user: UserName, p: Pending)
    requires p.outcome == CreateOutcome(s, p.u, p.r, p.e) && Writes(p.outcome)
    requires p.u.name == user && p.u.np && 0 <= Total(s.rows, user) <= B.MAX32
    ensures Total(s.rows, user) <= NP_USER_MAX_LABS
  {
    assert QuotaLeft(s.rows, p.u);
  }

  lemma {:induction false} RunKeepsAccounted(ms: seq<Move>, user: UserName, most: nat)
    requires ProperMoves(ms, user) && AtMost(ms, user, most) && Reach(most) <= B.MAX32
    ensures Accounted(DoAll(ms), user, most)
  {
    if ms == [] {
      TotalOfNone(user);
      assert Of(map[], user) == {};
    } else {
      var before, m := ms[..|ms| - 1], ms[|ms| - 1];
      RunKeepsAccounted(before, user, most);
      var h := DoAll(before);
      assert DoAll(ms) == Do(h, m);
      hide DoAll, Accounted;
      if !h.s.crashed { StepKeepsAccounted(h, user, most, m); } else { assert Do(h, m) == h; }
    }
  }

  lemma StepKeepsAccounted(h: Server, user: UserName, most: nat, m: Move)
    requires Accounted(h, user, most) && !h.s.crashed && Reach(most) <= B.MAX32
    requires |Of(Do(h, m).pending, user)| <= most
    requires m.Check? && m.u.name == user ==> m.u.np && m.r.capacity >= 0
    ensures Accounted(Do(h, m), user, most)
  {
    hide CreateOutcome, Effect, Step, Holds, Modest;
    match m
    case Check(_, _, _, _) => CheckKeepsAccounted(h, user, most, m);
    case Write(k) => if k in h.pending { WriteKeepsAccounted(h, user, most, k); }
    case Other(op) =>
      if !op.CreateOp? {
        OtherStepKeepsHolds(h.s, user, Reach(most) - NP_USER_MAX_LABS * |Of(h.pending, user)|, op);
      }
  }

  // ----- Filling the quota with overlapping requests -----

  const MEMBER := User("m", true)

  // Booking number `k` of the member.
  function Asked(k: nat): Op { Book("m", Name(k), NP_USER_MAX_LABS) }

  function CheckOf(k: nat): Move { Check(k, Asked(k).u, Asked(k).r, Asked(k).e) }

  function PendingOf(k: nat): Pending { Pending(Asked(k).u, Asked(k).r, Asked(k).e, BookedIt) }

  // The requests 1 to `n`.
  function PendingTo(n: nat): map<nat, Pending> { map k: nat | 0 < k <= n :: PendingOf(k) }

  lemma PendingSteps(n: nat)
    ensures if n == 0 then PendingTo(n) == map[] else
              n !in PendingTo(n - 1) && n in PendingTo(n) && PendingTo(n)[n] == PendingOf(n)
              && PendingTo(n) == PendingTo(n - 1)[n := PendingOf(n)] && PendingTo(n) - {n} == PendingTo(n - 1)
  {
    hide PendingOf;
  }

  lemma {:induction false} PendingCount(n: nat)
    ensures |Of(PendingTo(n), "m")| == n
  {
    PendingSteps(n);
    assert Of(map[], "m") == {};
    hide *;
    if n > 0 {
      PendingCount(n - 1);
      AskedIsProper(n);
      OfMore(PendingTo(n - 1), n, PendingOf(n), "m");
    }
  }

  lemma OfMore(pending: map<nat, Pending>, k: nat, p: Pending, user: UserName)
    requires k !in pending
    ensures Of(pending[k := p], user) == if p.u.name == user then Of(pending, user) + {k} else Of(pending, user)
    ensures |Of(pending[k := p], user)| == |Of(pending, user)| + if p.u.name == user then 1 else 0
  {
  }

  lemma OfLess(pending: map<nat, Pending>, k: nat, user: UserName)
    requires k in pending
    ensures |Of(pending - {k}, user)| == |Of(pending, user)| - if pending[k].u.name == user then 1 else 0
  {
    var mine := Of(pending, user);
    assert Of(pending - {k}, user) == mine - {k};
    assert |mine - {k}| == if k in mine then |mine| - 1 else |mine|;
  }

  // A run of the member's requests with at most `most` pending.
  ghost predicate Fills(ms: seq<Move>, most: nat, h: Server) {
    DoAll(ms) == h && ProperMoves(ms, "m") && AtMost(ms, "m", most) && !h.s.crashed
  }

  lemma Extend(ms: seq<Move>, most: nat, h: Server, m: Move)
    requires Fills(ms, most, h) && (m.Check? ==> m.u.np && m.r.capacity >= 0)
    requires |Of(Do(h, m).pending, "m")| <= most && !Do(h, m).s.crashed
    ensures Fills(ms + [m], most, Do(h, m))
  {
    DoOne(ms, m);
    assert (ms + [m])[..|ms|] == ms;
  }

  lemma CheckPasses(h: Server, k: nat)
    requires !h.s.crashed && k !in h.pending && Name(k) !in h.s.rows && QuotaLeft(h.s.rows, MEMBER)
    ensures Do(h, CheckOf(k)) == h.(pending := h.pending[k := PendingOf(k)])
  {
    BookPasses(h.s, "m", Name(k), NP_USER_MAX_LABS);
    hide CreateOutcome, Effect, QuotaLeft, Name;
  }

  // The first booking, and then `n` requests that all check before any of them writes.
  lemma {:induction false} CheckMany(ms: seq<Move>, most: nat, s: State, n: nat) returns (more: seq<Move>)
    requires Fills(ms, most, Server(s, map[])) && n <= most
    requires s.rows.Keys == {Name(0)} && QuotaLeft(s.rows, MEMBER)
    ensures Fills(more, most, Server(s, PendingTo(n)))
  {
    PendingSteps(n);
    FillsMeans(ms, most, Server(s, map[]));
    hide *;
    if n == 0 {
      more := ms;
    } else {
      more := CheckMany(ms, most, s, n - 1);
      var h := Server(s, PendingTo(n - 1));
      CheckPasses(h, n);
      PendingCount(n);
      AskedIsProper(n);
      Extend(more, most, h, CheckOf(n));
      more := more + [CheckOf(n)];
    }
  }

  lemma AskedIsProper(k: nat)
    ensures CheckOf(k).Check? && CheckOf(k).u == MEMBER && CheckOf(k).r.capacity == NP_USER_MAX_LABS
    ensures PendingOf(k).u == MEMBER
  {
  }

  lemma FillsMeans(ms: seq<Move>, most: nat, h: Server)
    requires Fills(ms, most, h)
    ensures DoAll(ms) == h && ProperMoves(ms, "m") && AtMost(ms, "m", most) && !h.s.crashed
  {
  }

  lemma WriteBooks(h: Server, n: nat)
    requires !h.s.crashed && n > 0 && h.pending == PendingTo(n) && Name(n) !in h.s.rows
    ensures Do(h, Write(n)).pending == PendingTo(n - 1) && !Do(h, Write(n)).s.crashed
    ensures Do(h, Write(n)).s.rows == h.s.rows[Name(n) := BookedRow("m", NP_USER_MAX_LABS)]
  {
    PendingSteps(n);
    hide PendingTo;
  }

  // The names of the rows are none of those still to be written.
  ghost predicate NamesAbove(s: State, n: nat) { forall t :: t in s.rows ==> |t| == 0 || |t| > n }

  lemma WriteOne(ms: seq<Move>, most: nat, h: Server, n: nat) returns (more: seq<Move>, t: Server)
    requires Fills(ms, most, h) && h.pending == PendingTo(n) && 0 < n <= most && NamesAbove(h.s, n)
    ensures Fills(more, most, t) && t.pending == PendingTo(n - 1) && NamesAbove(t.s, n - 1)
    ensures Total(t.s.rows, "m") == Total(h.s.rows, "m") + NP_USER_MAX_LABS
  {
    FillsMeans(ms, most, h);
    more, t := ms + [Write(n)], Do(h, Write(n));
    assert Name(n) !in h.s.rows;
    WriteBooks(h, n);
    assert NamesAbove(t.s, n - 1);
    hide *;
    PendingCount(n - 1);
    Extend(ms, most, h, Write(n));
    TotalWith(h.s.rows, "m", Name(n), BookedRow("m", NP_USER_MAX_LABS));
    ShareOfBooking("m");
  }

  lemma {:induction false} WriteMany(ms: seq<Move>, most: nat, h: Server, n: nat) returns (more: seq<Move>)
    requires Fills(ms, most, h) && h.pending == PendingTo(n) && n <= most && NamesAbove(h.s, n)
    ensures ProperMoves(more, "m") && AtMost(more, "m", most)
    ensures Total(DoAll(more).s.rows, "m") == Total(h.s.rows, "m") + NP_USER_MAX_LABS * n
    decreases n
  {
    hide *;
    if n == 0 {
      FillsMeans(ms, most, h);
      more := ms;
    } else {
      var t;
      more, t := WriteOne(ms, most, h, n);
      more := WriteMany(more, most, t, n - 1);
    }
  }

  lemma ShareOfBooking(user: UserName)
    ensures Share(BookedRow(user, NP_USER_MAX_LABS), user) == NP_USER_MAX_LABS
  {
  }

  lemma OneBooking(most: nat) returns (ms: seq<Move>, s: State)
    requires most > 0
    ensures Fills(ms, most, Server(s, map[])) && s.rows == map[Name(0) := BookedRow("m", NP_USER_MAX_LABS)]
    ensures Total(s.rows, "m") == NP_USER_MAX_LABS
  {
    var start := Server(Nothing(), map[]);
    TotalOfNone("m");
    assert Of(map[], "m") == {};
    assert Fills([], most, start);
    CheckPasses(start, 0);
    var h := Server(Nothing(), map[0 := PendingOf(0)]);
    assert h.pending == map[][0 := PendingOf(0)] && Of(h.pending, "m") == {0};
    Extend([], most, start, CheckOf(0));
    var done := Do(h, Write(0));
    assert done.pending == map[];
    Extend([] + [CheckOf(0)], most, h, Write(0));
    ms, s := [] + [CheckOf(0)] + [Write(0)], done.s;
    TotalWith(map[], "m", Name(0), BookedRow("m", NP_USER_MAX_LABS));
  }

  /** A member who sends `most` requests at once, after a first booking, comes to hold 40 for each of them more. */
  lemma QuotaCanBeFilled(most: nat) returns (ms: seq<Move>)
    ensures ProperMoves(ms, "m") && AtMost(ms, "m", most) && Total(DoAll(ms).s.rows, "m") == Reach(most)
  {
    if most == 0 {
      ms := [];
      TotalOfNone("m");
      assert Of(map[], "m") == {};
    } else {
      var s;
      ms, s := OneBooking(most);
      hide Fills, Total, AtMost, ProperMoves;
      ms := CheckMany(ms, most, s, most);
      ms := WriteMany(ms, most, Server(s, PendingTo(most)), most);
    }
  }

  /** Every run in which a restricted user has at most `most` requests between check and write keeps the bound. */
  ghost predicate QuotaHoldsWith(most: nat, bound: int) {
    forall user, ms :: ProperMoves(ms, user) && AtMost(ms, user, most) ==> Total(DoAll(ms).s.rows, user) <= bound
  }

  /** The least bound that holds for `most` overlapping requests is 40 for each of them and 40 more. */
  lemma QuotaHoldsWithIff(most: nat, bound: int)
    requires Reach(most) <= B.MAX32
    ensures QuotaHoldsWith(most, bound) <==> Reach(most) <= bound
  {
    hide DoAll, ProperMoves, AtMost, Total;
    if Reach(most) <= bound {
      forall user, ms | ProperMoves(ms, user) && AtMost(ms, user, most) ensures Total(DoAll(ms).s.rows, user) <= bound {
        RunKeepsAccounted(ms, user, most);
      }
    } else {
      var ms := QuotaCanBeFilled(most);
    }
  }

  // ----- Tags -----

  /** At no time are more than `most` requests of anybody between check and write. */
  ghost predicate AllAtMost(ms: seq<Move>, most: nat) {
    |DoAll(ms).pending| <= most && (ms == [] || AllAtMost(ms[..|ms| - 1], most))
  }

  /** What a pending request is going to write is still new to the database, and to the pool if it goes there. */
  predicate Unclaimed(h: Server) {
    forall k :: k in h.pending ==>
      && h.pending[k].r.tag !in h.s.rows
      && (h.pending[k].outcome != BookedIt ==> h.pending[k].r.tag !in h.s.pool.events)
  }

  /** In runs with at most `most` pending requests, nothing is ever written over another event. */
  ghost predicate TagsSafe(most: nat) { forall ms :: AllAtMost(ms, most) ==> Unclaimed(DoAll(ms)) }

  lemma {:induction false} VisitClaimsNothing(s: State, listed: seq<Tag>, now: B.Time, buildings: Buildings, t: Tag)
    requires t !in s.rows
    ensures var s' := Visit(s, listed, now, buildings).0;
      t !in s'.rows && (t !in s.pool.events ==> t !in s'.pool.events)
    decreases |listed|
  {
    if listed != [] {
      if !Due(s, listed[0], now) {
        VisitClaimsNothing(s, listed[1..], now, buildings, t);
      } else if BookingBuilds(s, listed[0], buildings) {
        VisitClaimsNothing(StartBooked(s, listed[0]), listed[1..], now, buildings, t);
      }
    }
  }

  lemma {:induction false} CloseAllClaimsNothing(s: State, listed: seq<Tag>, now: B.Time, t: Tag)
    requires t !in s.rows
    ensures var s' := CloseAll(s, listed, now); t !in s'.rows && (t !in s.pool.events ==> t !in s'.pool.events)
    decreases |listed|
  {
    if listed != [] {
      CloseAllClaimsNothing(if Overdue(s, listed[0], now) then Close(s, listed[0]) else s, listed[1..], now, t);
    }
  }

  lemma OthersClaimNothing(s: State, op: Op, t: Tag)
    requires !op.CreateOp? && t !in s.rows
    ensures t !in Step(s, op).rows && (t !in s.pool.events ==> t !in Step(s, op).pool.events)
  {
    hide Visit, CloseAll;
    match op
    case VisitOp(listed, now, buildings) => VisitClaimsNothing(s, listed, now, buildings, t);
    case CloseOp(listed, now) => CloseAllClaimsNothing(s, listed, now, t);
    case _ =>
  }

  lemma CheckKeepsUnclaimed(h: Server, m: Move)
    requires Unclaimed(h) && m.Check? && !h.s.crashed
    ensures Unclaimed(Do(h, m))
  {
    var outcome := CreateOutcome(h.s, m.u, m.r, m.e);
    if m.k !in h.pending {
      if Writes(outcome) {
        CreateAppends(h.s, m.u, m.r, m.e);
        assert Do(h, m) == h.(pending := h.pending[m.k := Pending(m.u, m.r, m.e, outcome)]);
      } else {
        assert Do(h, m).pending == h.pending && Do(h, m).s.rows == h.s.rows && Do(h, m).s.pool == h.s.pool;
      }
    }
    hide CreateOutcome, Effect, Do;
  }

  lemma WriteKeepsUnclaimed(h: Server, k: nat)
    requires Unclaimed(h) && |h.pending| <= 1 && !h.s.crashed
    ensures Unclaimed(Do(h, Write(k)))
  {
    if k in h.pending {
      assert (h.pending - {k}).Keys == h.pending.Keys - {k};
      assert |h.pending - {k}| == |h.pending| - 1;
      assert Do(h, Write(k)).pending == map[];
    }
    hide Effect;
  }

  lemma OtherKeepsUnclaimed(h: Server, op: Op)
    requires Unclaimed(h) && !h.s.crashed
    ensures Unclaimed(Do(h, Other(op)))
  {
    hide Step;
    if !op.CreateOp? {
      forall k | k in h.pending { OthersClaimNothing(h.s, op, h.pending[k].r.tag); }
    }
  }

  lemma DoKeepsUnclaimed(h: Server, m: Move)
    requires Unclaimed(h) && |h.pending| <= 1
    ensures Unclaimed(Do(h, m))
  {
    if h.s.crashed {
      assert Do(h, m) == h;
    } else {
      hide Do, Unclaimed;
      match m
      case Check(_, _, _, _) => CheckKeepsUnclaimed(h, m);
      case Write(k) => WriteKeepsUnclaimed(h, k);
      case Other(op) => OtherKeepsUnclaimed(h, op);
    }
  }

  lemma {:induction false} RunKeepsUnclaimed(ms: seq<Move>)
    requires AllAtMost(ms, 1)
    ensures Unclaimed(DoAll(ms))
  {
    if ms != [] {
      RunKeepsUnclaimed(ms[..|ms| - 1]);
      DoKeepsUnclaimed(DoAll(ms[..|ms| - 1]), ms[|ms| - 1]);
    }
  }

  // A request for an event that starts at once.
  function StartNow(k: nat, name: UserName): Move {
    Check(k, User(name, true), Request("aa", 1, false, Some(B.DAY), Some(2 * B.DAY), 1),
          Surroundings(B.DAY, false, true, map[], Complete))
  }

  lemma StartNowPasses(k: nat, name: UserName)
    ensures var m := StartNow(k, name); CreateOutcome(Nothing(), m.u, m.r, m.e) == Started
  {
    var m := StartNow(k, name);
    TotalOfNone(name);
    InsertsIff(Nothing(), m.u, m.r, m.e);
    assert Inserts(Nothing(), m.u, m.r, m.e);
    hide CreateOutcome;
  }

  /** Two requests for one tag that both check before either writes: the second event takes the place of the first in
      the pool. */
  lemma EventCanBeOverwritten() returns (ms: seq<Move>)
    ensures AllAtMost(ms, 2) && !Unclaimed(DoAll(ms)) && 1 in DoAll(ms).pending
    ensures var h, t := DoAll(ms), DoAll(ms + [Write(1)]);
      && "aa" in h.s.pool.events && h.s.pool.events["aa"].createdBy == "m"
      && "aa" in t.s.pool.events && t.s.pool.events["aa"].createdBy == "o"
  {
    var a, b := StartNow(0, "m"), StartNow(1, "o");
    StartNowPasses(0, "m");
    StartNowPasses(1, "o");
    hide CreateOutcome;
    var p, q := Pending(a.u, a.r, a.e, Started), Pending(b.u, b.r, b.e, Started);
    ms := [] + [a] + [b] + [Write(0)];
    DoOne([], a);
    DoOne([] + [a], b);
    DoOne([] + [a] + [b], Write(0));
    DoOne(ms, Write(1));
    assert DoAll([] + [a]) == Server(Nothing(), map[0 := p]);
    assert DoAll([] + [a] + [b]) == Server(Nothing(), map[0 := p, 1 := q]);
    assert DoAll(ms).pending == map[1 := q];
    assert ms[..3] == ms && ms[..2] == [a] + [b] && ms[..1] == [a] && ms[..0] == [];
    TwoPending(a, b);
  }

  lemma TwoPending(a: Move, b: Move)
    requires |DoAll([] + [a]).pending| <= 2 && |DoAll([] + [a] + [b]).pending| <= 2
    requires |DoAll([] + [a] + [b] + [Write(0)]).pending| <= 2
    ensures AllAtMost([] + [a] + [b] + [Write(0)], 2)
  {
    var x, y, z := [] + [a], [] + [a] + [b], [] + [a] + [b] + [Write(0)];
    assert z[..2] == y && y[..1] == x && x[..0] == [];
    assert |DoAll([]).pending| == 0;
    hide DoAll;
    assert AllAtMost([], 2) && AllAtMost(x, 2) && AllAtMost(y, 2);
  }

  lemma {:induction false} FewerPending(ms: seq<Move>, few: nat, many: nat)
    requires AllAtMost(ms, few) && few <= many
    ensures AllAtMost(ms, many)
  {
    if ms != [] { FewerPending(ms[..|ms| - 1], few, many); }
  }

  /** Nothing is overwritten, over all interleavings, exactly when at most one request is between check and write. */
  lemma TagsSafeIff(most: nat)
    ensures TagsSafe(most) <==> most <= 1
  {
    if most <= 1 {
      forall ms | AllAtMost(ms, most) ensures Unclaimed(DoAll(ms)) {
        FewerPending(ms, most, 1);
        RunKeepsUnclaimed(ms);
      }
    } else {
      var ms := EventCanBeOverwritten();
      FewerPending(ms, 2, most);
    }
  }
}
