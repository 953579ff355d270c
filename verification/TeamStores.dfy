/** The team store of store/team.go, its reload in store/event.go and the sign-up of svcs/amigo/amigo.go. */
module TeamStores {
  import opened Wrappers

  type Id = string

  /** A team as the store sees it; `name` has been trimmed by NewTeam. */
  datatype Team = Team(id: Id, name: string)

  datatype Index = Index(teams: map<Id, Team>, names: map<string, Id>)

  datatype SaveResult = Saved | AlreadyExists | DatabaseFailed
  datatype DeleteResult = Deleted | DeleteFailed | Crashed

  /** `names` and `teams` are inverse bijections. */
  ghost predicate Consistent(x: Index) {
    && (forall n :: n in x.names ==> x.names[n] in x.teams && x.teams[x.names[n]].name == n)
    && (forall i :: i in x.teams ==> x.teams[i].id == i && x.teams[i].name in x.names && x.names[x.teams[i].name] == i)
  }

  function Put(x: Index, t: Team): Index { Index(x.teams[t.id := t], x.names[t.name := t.id]) }

  function AfterSave(x: Index, t: Team): Index { if t.name in x.names then x else Put(x, t) }

  function AfterDelete(x: Index, id: Id): Index {
    if id !in x.teams then x else Index(x.teams - {id}, x.names - {x.teams[id].name})
  }

  class TeamStore {
    var teams: map<Id, Team>
    var names: map<string, Id>
    const capacity: nat

    function Contents(): Index
      reads this
    {
      Index(teams, names)
    }

    /** NewEventStore: fill the store with the event's rows in the database. */
    constructor (capacity: nat, rows: seq<Team>)
      ensures this.capacity == capacity && Contents() == Filled(rows)
    {
      this.capacity := capacity;
      var ts: map<Id, Team>, ns: map<string, Id> := map[], map[];
      for k := 0 to |rows|
        invariant Index(ts, ns) == Filled(rows[..k])
      {
        assert rows[..k + 1][..k] == rows[..k];
        ns := ns[rows[k].name := rows[k].id];
        ts := ts[rows[k].id := rows[k]];
      }
      assert rows[..|rows|] == rows;
      teams, names := ts, ns;
    }

    /** SaveTeam: memory first, then the database, whose failure does not undo anything. */
    method SaveTeam(t: Team, written: bool) returns (r: SaveResult)
      modifies this
      ensures Contents() == AfterSave(old(Contents()), t)
      ensures r == if t.name in old(names) then AlreadyExists else if written then Saved else DatabaseFailed
    {
      if t.name in names { return AlreadyExists; }
      names := names[t.name := t.id];
      teams := teams[t.id := t];
      r := if written then Saved else DatabaseFailed;
    }

    /** DeleteTeam; asking for an unknown id dereferences a nil team. */
    method DeleteTeam(id: Id, dropped: bool) returns (r: DeleteResult)
      modifies this
      ensures Contents() == AfterDelete(old(Contents()), id)
      ensures r == if id !in old(teams) then Crashed else if dropped then Deleted else DeleteFailed
    {
      if id !in teams { return Crashed; }
      var team := teams[id];
      if team.name in names { names := names - {team.name}; }
      teams := teams - {id};
      r := if dropped then Deleted else DeleteFailed;
    }

    method GetTeamByUsername(username: string) returns (r: Option<Team>)
      ensures r == if username in names && names[username] in teams then Some(teams[names[username]]) else None
      ensures Consistent(Contents()) ==> (r.None? <==> username !in names)
      ensures Consistent(Contents()) ==> (r.None? <==> forall i :: i in teams ==> teams[i].name != username)
      ensures Consistent(Contents()) && r.Some? ==> r.value.name == username
    {
      if username !in names { return None; }
      if names[username] !in teams { return None; }
      r := Some(teams[names[username]]);
    }
  }

  // ----- Laws -----

  /** Saving keeps the two maps inverse exactly when the name is taken (nothing happens) or the id is new. */
  lemma SaveKeepsConsistentIff(x: Index, t: Team)
    requires Consistent(x)
    ensures Consistent(AfterSave(x, t)) <==> t.name in x.names || t.id !in x.teams
  {
    if t.name !in x.names && t.id in x.teams {
      var y := AfterSave(x, t);
      var other := x.teams[t.id].name;
      assert other in y.names && y.teams[y.names[other]] == t;
    }
  }

  lemma DeleteKeepsConsistent(x: Index, id: Id)
    requires Consistent(x)
    ensures Consistent(AfterDelete(x, id))
    ensures id in x.teams ==> |AfterDelete(x, id).teams| == |x.teams| - 1
  {
    if id in x.teams {
      var y := AfterDelete(x, id);
      assert y.teams.Keys == x.teams.Keys - {id};
      assert forall i :: i in y.teams ==> y.teams[i].name != x.teams[id].name;
    }
  }

  function Filled(rows: seq<Team>): Index {
    if rows == [] then Index(map[], map[]) else Put(Filled(rows[..|rows| - 1]), rows[|rows| - 1])
  }

  ghost predicate DistinctIds(rows: seq<Team>) {
    forall i, j :: 0 <= i < j < |rows| ==> rows[i].id != rows[j].id
  }

  ghost predicate DistinctNames(rows: seq<Team>) {
    forall i, j :: 0 <= i < j < |rows| ==> rows[i].name != rows[j].name
  }

  // Each row leaves its id and its name, and nothing else is there.
  lemma {:induction false} FilledTeams(rows: seq<Team>)
    requires DistinctIds(rows)
    ensures var x := Filled(rows);
      && (forall i :: 0 <= i < |rows| ==> rows[i].id in x.teams && x.teams[rows[i].id] == rows[i])
      && (forall d :: d in x.teams ==> x.teams[d] in rows && x.teams[d].id == d)
  {
    if rows != [] { FilledTeams(rows[..|rows| - 1]); }
  }

  lemma {:induction false} FilledNames(rows: seq<Team>)
    ensures var x := Filled(rows);
      && (forall i :: 0 <= i < |rows| ==> rows[i].name in x.names)
      && (forall n :: n in x.names ==> Team(x.names[n], n) in rows)
  {
    if rows != [] {
      var most, last := rows[..|rows| - 1], rows[|rows| - 1];
      FilledNames(most);
      assert rows == most + [last] && last == Team(last.id, last.name);
    }
  }

  /** The database keeps ids apart; a reload gives inverse maps exactly when it keeps names apart too. */
  lemma ReloadConsistentIff(rows: seq<Team>)
    requires DistinctIds(rows)
    ensures Consistent(Filled(rows)) <==> DistinctNames(rows)
  {
    var x := Filled(rows);
    FilledTeams(rows);
    FilledNames(rows);
    hide Filled;
    if DistinctNames(rows) {
      forall n | n in x.names ensures x.names[n] in x.teams && x.teams[x.names[n]].name == n {
        var i :| 0 <= i < |rows| && rows[i] == Team(x.names[n], n);
      }
      forall d | d in x.teams ensures x.teams[d].name in x.names && x.names[x.teams[d].name] == d {
        var j :| 0 <= j < |rows| && rows[j] == x.teams[d];
        var i :| 0 <= i < |rows| && rows[i] == Team(x.names[rows[j].name], rows[j].name);
        assert i == j;
      }
    } else {
      var i, j :| 0 <= i < j < |rows| && rows[i].name == rows[j].name;
      assert x.teams[rows[i].id].name == x.teams[rows[j].id].name;
    }
  }

  // ----- Runs -----

  /** A step of a sign-up request, or a deletion.  A request first checks the capacity, then may be taken for a robot
      and given up, then makes its team and saves it; other requests may step in between. */
  datatype Op = Check(request: nat) | GiveUp(request: nat) | Save(request: nat, t: Team) | Delete(id: Id)

  /** The store, and the requests that have passed the check and not saved yet. */
  datatype Store = Store(index: Index, pending: set<nat>)

  function Empty(): Store { Store(Index(map[], map[]), {}) }

  function Do(s: Store, capacity: nat, op: Op): Store {
    match op
    case Check(k) => if |s.index.teams| == capacity then s else s.(pending := s.pending + {k})
    case GiveUp(k) => s.(pending := s.pending - {k})
    case Save(k, t) => if k in s.pending then Store(AfterSave(s.index, t), s.pending - {k}) else s
    case Delete(id) => s.(index := AfterDelete(s.index, id))
  }

  /** The requests of handleSignupPOST on one store.  No lock is held between a request's two critical sections; which
      requests are between them is kept in `pending`. */
  class Signups {
    const store: TeamStore
    ghost var pending: set<nat>

    ghost function Contents(): Store
      reads this, store
    {
      Store(store.Contents(), pending)
    }

    constructor (store: TeamStore)
      ensures this.store == store && pending == {}
    {
      this.store := store;
      pending := {};
    }

    /** The first critical section.  Passing means that there was a place, if the store was within its capacity, and
        nothing is set aside: the store is as before. */
    method CheckCapacity(request: nat) returns (passed: bool)
      requires request !in pending
      modifies this
      ensures Contents() == Do(old(Contents()), store.capacity, Check(request))
      ensures store.Contents() == old(store.Contents()) && (passed <==> request in pending)
      ensures |store.teams| <= store.capacity ==> (passed <==> |store.teams| < store.capacity)
    {
      if |store.teams| == store.capacity { return false; }
      pending := pending + {request};
      passed := true;
    }

    /** The request does not pass the robot test. */
    method Refuse(request: nat)
      modifies this
      ensures Contents() == Do(old(Contents()), store.capacity, GiveUp(request))
    {
      pending := pending - {request};
    }

    /** The second critical section. */
    method SaveNew(request: nat, t: Team, written: bool) returns (r: SaveResult)
      requires request in pending
      modifies this, store
      ensures Contents() == Do(old(Contents()), store.capacity, Save(request, t))
      ensures r == if t.name in old(store.names) then AlreadyExists else if written then Saved else DatabaseFailed
      ensures old(Bounded(Contents(), store.capacity)) && old(|pending|) <= 1 && t.id !in old(store.teams) ==>
                Bounded(Contents(), store.capacity)
    {
      if Bounded(Contents(), store.capacity) && |pending| <= 1 && t.id !in store.teams {
        DoKeepsBounded(Contents(), store.capacity, Save(request, t));
      }
      r := store.SaveTeam(t, written);
      pending := pending - {request};
    }
  }

  function DoAll(s: Store, capacity: nat, ops: seq<Op>): Store {
    if ops == [] then s else Do(DoAll(s, capacity, ops[..|ops| - 1]), capacity, ops[|ops| - 1])
  }

  /** Every team saved has an id that is not in use. */
  ghost predicate FreshIds(s: Store, capacity: nat, ops: seq<Op>) {
    ops == [] ||
    (FreshIds(s, capacity, ops[..|ops| - 1]) &&
     (ops[|ops| - 1].Save? ==> ops[|ops| - 1].t.id !in DoAll(s, capacity, ops[..|ops| - 1]).index.teams))
  }

  /** Never more than `most` requests are between their check and their save. */
  ghost predicate PendingAtMost(s: Store, capacity: nat, ops: seq<Op>, most: nat) {
    |DoAll(s, capacity, ops).pending| <= most && (ops == [] || PendingAtMost(s, capacity, ops[..|ops| - 1], most))
  }

  /** Over every interleaving of sign-ups and deletions the maps stay inverse; failed database writes make no
      difference, for they change nothing in memory. */
  lemma {:induction false} RunKeepsConsistent(s: Store, capacity: nat, ops: seq<Op>)
    requires Consistent(s.index) && FreshIds(s, capacity, ops)
    ensures Consistent(DoAll(s, capacity, ops).index)
  {
    hide Consistent;
    if ops != [] {
      var t, op := DoAll(s, capacity, ops[..|ops| - 1]), ops[|ops| - 1];
      RunKeepsConsistent(s, capacity, ops[..|ops| - 1]);
      match op
      case Check(_) =>
      case GiveUp(_) =>
      case Save(_, team) => SaveKeepsConsistentIff(t.index, team);
      case Delete(id) => DeleteKeepsConsistent(t.index, id);
    }
  }

  // ----- The capacity -----

  /** What a store within its capacity keeps while at most one request is pending. */
  ghost predicate Bounded(s: Store, capacity: nat) {
    && Consistent(s.index) && |s.index.teams| <= capacity
    && (s.pending != {} ==> |s.index.teams| < capacity)
  }

  lemma {:induction false} RunKeepsBounded(s: Store, capacity: nat, ops: seq<Op>)
    requires Bounded(s, capacity) && FreshIds(s, capacity, ops) && PendingAtMost(s, capacity, ops, 1)
    ensures Bounded(DoAll(s, capacity, ops), capacity)
  {
    if ops != [] {
      RunKeepsBounded(s, capacity, ops[..|ops| - 1]);
      DoKeepsBounded(DoAll(s, capacity, ops[..|ops| - 1]), capacity, ops[|ops| - 1]);
    }
  }

  lemma DoKeepsBounded(s: Store, capacity: nat, op: Op)
    requires Bounded(s, capacity) && |s.pending| <= 1 && (op.Save? ==> op.t.id !in s.index.teams)
    ensures Bounded(Do(s, capacity, op), capacity)
  {
    match op
    case Check(_) =>
    case GiveUp(_) =>
    case Save(k, t) =>
      SaveKeepsConsistentIff(s.index, t);
      SaveAddsOne(s.index, t);
      if k in s.pending { OnlyOne(s.pending, k); }
    case Delete(id) =>
      DeleteKeepsConsistent(s.index, id);
      if id !in s.index.teams { assert AfterDelete(s.index, id) == s.index; }
  }

  lemma SaveAddsOne(x: Index, t: Team)
    requires t.id !in x.teams
    ensures |AfterSave(x, t).teams| == |x.teams| + if t.name in x.names then 0 else 1
  {
    if t.name !in x.names { assert AfterSave(x, t).teams.Keys == x.teams.Keys + {t.id}; }
  }

  lemma OnlyOne(s: set<nat>, k: nat)
    requires k in s && |s| <= 1
    ensures s - {k} == {}
  {
    assert |s - {k}| == |s| - 1;
  }

  /** An event without places takes nobody. */
  lemma {:induction false} NoPlacesNoTeams(ops: seq<Op>)
    ensures DoAll(Empty(), 0, ops) == Empty()
  {
    if ops != [] {
      NoPlacesNoTeams(ops[..|ops| - 1]);
      assert AfterDelete(Empty().index, if ops[|ops| - 1].Delete? then ops[|ops| - 1].id else "") == Empty().index;
    }
  }

  // A crowd of `n` teams with different names.
  function Nth(n: nat): Team { Team(Name(n), Name(n)) }

  function Crowd(n: nat): (x: Index)
    ensures forall i :: i in x.teams ==> |i| < n
    ensures forall m :: m in x.names ==> |m| < n
    ensures |x.teams| == n
  {
    if n == 0 then Index(map[], map[])
    else
      var x := Crowd(n - 1);
      assert Put(x, Nth(n - 1)).teams.Keys == x.teams.Keys + {Name(n - 1)};
      Put(x, Nth(n - 1))
  }

  lemma ExtendRun(capacity: nat, ops: seq<Op>, op: Op, most: nat)
    requires FreshIds(Empty(), capacity, ops) && PendingAtMost(Empty(), capacity, ops, most)
    requires var s := DoAll(Empty(), capacity, ops);
      |Do(s, capacity, op).pending| <= most && (op.Save? ==> op.t.id !in s.index.teams)
    ensures DoAll(Empty(), capacity, ops + [op]) == Do(DoAll(Empty(), capacity, ops), capacity, op)
    ensures FreshIds(Empty(), capacity, ops + [op]) && PendingAtMost(Empty(), capacity, ops + [op], most)
  {
    assert (ops + [op])[..|ops|] == ops;
  }

  // One team more, by a request that nobody interrupts.
  lemma OneMore(capacity: nat, n: nat, ops: seq<Op>) returns (more: seq<Op>)
    requires FreshIds(Empty(), capacity, ops) && PendingAtMost(Empty(), capacity, ops, 2)
    requires DoAll(Empty(), capacity, ops) == Store(Crowd(n), {}) && n != capacity
    ensures FreshIds(Empty(), capacity, more) && PendingAtMost(Empty(), capacity, more, 2)
    ensures DoAll(Empty(), capacity, more) == Store(Crowd(n + 1), {})
  {
    hide DoAll, FreshIds, PendingAtMost;
    ExtendRun(capacity, ops, Check(0), 2);
    more := ops + [Check(0)];
    ExtendRun(capacity, more, Save(0, Nth(n)), 2);
    more := more + [Save(0, Nth(n))];
    assert Crowd(n + 1) == Put(Crowd(n), Nth(n));
  }

  // The last place, given to two requests that both check before either saves.
  lemma TwoMore(capacity: nat, ops: seq<Op>) returns (more: seq<Op>)
    requires capacity > 0 && FreshIds(Empty(), capacity, ops) && PendingAtMost(Empty(), capacity, ops, 2)
    requires DoAll(Empty(), capacity, ops) == Store(Crowd(capacity - 1), {})
    ensures FreshIds(Empty(), capacity, more) && PendingAtMost(Empty(), capacity, more, 2)
    ensures DoAll(Empty(), capacity, more) == Store(Crowd(capacity + 1), {})
  {
    hide DoAll, FreshIds, PendingAtMost;
    var n := capacity - 1;
    ExtendRun(capacity, ops, Check(0), 2);
    more := ops + [Check(0)];
    ExtendRun(capacity, more, Check(1), 2);
    more := more + [Check(1)];
    ExtendRun(capacity, more, Save(0, Nth(n)), 2);
    more := more + [Save(0, Nth(n))];
    assert Crowd(n + 1) == Put(Crowd(n), Nth(n));
    ExtendRun(capacity, more, Save(1, Nth(n + 1)), 2);
    more := more + [Save(1, Nth(n + 1))];
    assert Crowd(n + 2) == Put(Crowd(n + 1), Nth(n + 1));
  }

  lemma NobodyYet(capacity: nat)
    ensures FreshIds(Empty(), capacity, []) && PendingAtMost(Empty(), capacity, [], 2)
    ensures DoAll(Empty(), capacity, []) == Store(Crowd(0), {})
  {
  }

  /** As soon as two requests may be between check and save, an event with a place takes any number of teams: once
      the last place has been given away twice, the test for equality never holds anyone back again. */
  lemma {:induction false} AnyNumberOfTeams(capacity: nat, n: nat) returns (ops: seq<Op>)
    requires capacity > 0 && n != capacity
    ensures FreshIds(Empty(), capacity, ops) && PendingAtMost(Empty(), capacity, ops, 2)
    ensures DoAll(Empty(), capacity, ops) == Store(Crowd(n), {}) && |Crowd(n).teams| == n
  {
    hide *;
    if n == 0 {
      ops := [];
      NobodyYet(capacity);
    } else if n == capacity + 1 {
      ops := AnyNumberOfTeams(capacity, n - 2);
      ops := TwoMore(capacity, ops);
    } else {
      ops := AnyNumberOfTeams(capacity, n - 1);
      ops := OneMore(capacity, n - 1, ops);
    }
  }

  /** No run with at most `most` requests between check and save takes more teams than there are places. */
  ghost predicate CapacityHolds(capacity: nat, most: nat) {
    forall ops :: FreshIds(Empty(), capacity, ops) && PendingAtMost(Empty(), capacity, ops, most) ==>
                    |DoAll(Empty(), capacity, ops).index.teams| <= capacity
  }

  /** The capacity holds for all interleavings exactly when at most one request is between check and save at a time
      (or when there is no place at all). */
  lemma CapacityHoldsIff(capacity: nat, most: nat)
    ensures CapacityHolds(capacity, most) <==> capacity == 0 || most <= 1
  {
    if capacity == 0 {
      forall ops ensures |DoAll(Empty(), 0, ops).index.teams| <= 0 { NoPlacesNoTeams(ops); }
    } else if most <= 1 {
      forall ops | FreshIds(Empty(), capacity, ops) && PendingAtMost(Empty(), capacity, ops, most)
        ensures |DoAll(Empty(), capacity, ops).index.teams| <= capacity
      {
        FewerPending(capacity, ops, most, 1);
        RunKeepsBounded(Empty(), capacity, ops);
      }
    } else {
      var ops := AnyNumberOfTeams(capacity, capacity + 1);
      FewerPending(capacity, ops, 2, most);
    }
  }

  lemma {:induction false} FewerPending(capacity: nat, ops: seq<Op>, few: nat, many: nat)
    requires PendingAtMost(Empty(), capacity, ops, few) && few <= many
    ensures PendingAtMost(Empty(), capacity, ops, many)
  {
    if ops != [] { FewerPending(capacity, ops[..|ops| - 1], few, many); }
  }

  /** The check compares for equality: a store that starts above its capacity is never held back again. */
  lemma AboveCapacityUnchecked(s: Store, capacity: nat, k: nat, t: Team)
    requires Consistent(s.index) && |s.index.teams| > capacity && t.name !in s.index.names && t.id !in s.index.teams
    ensures |Do(Do(s, capacity, Check(k)), capacity, Save(k, t)).index.teams| == |s.index.teams| + 1
  {
    SaveAddsOne(s.index, t);
  }
}
