/** A lab (lab/lab.go): its environment and the frontends through which a team enters it. */
module Labs {
  import opened Wrappers
  import opened Exercises
  import opened Environments

  type Port = nat
  type Frontends = map<Port, Machine>

  /** Which operation of a restart fails, counted from 0, and the state that leaves. */
  datatype Fault = Fault(at: nat, left: Machine)

  type RestartFaults = map<Port, Fault>

  datatype VmOp = Create | Start | Stop

  // ----- Specification -----

  /** What an operation makes of a machine, if its state admits it. */
  function After(m: Machine, op: VmOp): Option<Machine> {
    match op
    case Create => if m == Error then Some(Stopped) else None
    case Start => if m == Stopped || m == Suspended then Some(Running) else None
    case Stop => if m == Running then Some(Stopped) else None
  }

  /** The operations Restart uses for a frontend in this state. */
  function RestartOps(m: Machine): (ops: seq<VmOp>) {
    match m
    case Running => [Stop, Start]
    case Stopped => [Start]
    case Suspended => [Start, Stop, Start]
    case Error => [Create, Start]
  }

  predicate Fails(m: Machine, p: Port, faults: RestartFaults) { p in faults && faults[p].at < |RestartOps(m)| }

  /** The frontends in the order in which the map is ranged over, up to the first that fails. */
  function Restarted(fs: Frontends, order: seq<Port>, faults: RestartFaults): (Frontends, bool)
    decreases |order|
  {
    if order == [] then (fs, true)
    else
      var p := order[0];
      if p !in fs then Restarted(fs, order[1..], faults)
      else if Fails(fs[p], p, faults) then (fs[p := faults[p].left], false)
      else Restarted(fs[p := Running], order[1..], faults)
  }

  /** The frontends in state `from` go to state `to`: suspending, and resuming, the frontends. */
  function Moved(fs: Frontends, order: seq<Port>, from: Machine, to: Machine, faults: Faults): (Frontends, bool)
    decreases |order|
  {
    if order == [] then (fs, true)
    else
      var p := order[0];
      if p !in fs || fs[p] != from then Moved(fs, order[1..], from, to, faults)
      else if p in faults then (fs[p := faults[p]], false)
      else Moved(fs[p := to], order[1..], from, to, faults)
  }

  ghost predicate Distinct(order: seq<Port>) { forall i, j :: 0 <= i < j < |order| ==> order[i] != order[j] }

  /** An order in which the map may be ranged over. */
  ghost predicate Orders(order: seq<Port>, fs: Frontends) { Distinct(order) && forall p :: p in order <==> p in fs }

  // ----- The class -----

  class Lab {
    const environment: Environment
    var frontends: Frontends

    constructor (environment: Environment, frontends: Frontends)
      ensures this.environment == environment && this.frontends == frontends
    {
      this.environment, this.frontends := environment, frontends;
    }

    /** One operation on a frontend's machine, which must be in a state that admits it. */
    method Do(p: Port, op: VmOp, k: nat, faults: RestartFaults) returns (ok: bool)
      requires p in frontends
      requires After(frontends[p], op).Some?
      modifies this`frontends
      ensures ok <==> !(p in faults && faults[p].at == k)
      ensures frontends == old(frontends)[p := if ok then After(old(frontends)[p], op).value else faults[p].left]
    {
      if p in faults && faults[p].at == k {
        frontends := frontends[p := faults[p].left];
        return false;
      }
      frontends := frontends[p := if op == Start then Running else Stopped];
      ok := true;
    }

    /** The switch of Restart; `done` are the operations that succeed. */
    method RestartFrontend(p: Port, faults: RestartFaults) returns (ok: bool, ghost done: seq<VmOp>)
      requires p in frontends
      modifies this`frontends
      ensures ok <==> !Fails(old(frontends)[p], p, faults)
      ensures frontends == old(frontends)[p := if ok then Running else faults[p].left]
      ensures done <= RestartOps(old(frontends)[p])
      ensures if ok then done == RestartOps(old(frontends)[p]) else |done| == faults[p].at
    {
      done := [];
      match frontends[p]
      case Running =>
        ok := Do(p, Stop, 0, faults);
        if !ok { return; }
        done := [Stop];
        ok := Do(p, Start, 1, faults);
        if ok { done := [Stop, Start]; }
      case Stopped =>
        ok := Do(p, Start, 0, faults);
        if ok { done := [Start]; }
      case Suspended =>
        ok := Do(p, Start, 0, faults);
        if !ok { return; }
        done := [Start];
        ok := Do(p, Stop, 1, faults);
        if !ok { return; }
        done := [Start, Stop];
        ok := Do(p, Start, 2, faults);
        if ok { done := [Start, Stop, Start]; }
      case Error =>
        ok := Do(p, Create, 0, faults);
        if !ok { return; }
        done := [Create];
        ok := Do(p, Start, 1, faults);
        if ok { done := [Create, Start]; }
    }

    method RestartFrontends(order: seq<Port>, faults: RestartFaults) returns (ok: bool)
      modifies this`frontends
      ensures (frontends, ok) == Restarted(old(frontends), order, faults)
    {
      for i := 0 to |order|
        invariant Restarted(frontends, order[i..], faults) == Restarted(old(frontends), order, faults)
      {
        if order[i] in frontends {
          ghost var done;
          ok, done := RestartFrontend(order[i], faults);
          if !ok { return; }
        }
      }
      ok := true;
    }

    /** Restart; when it reports no error, every machine and every frontend is running. */
    method Restart(services: bool, attempts: seq<Attempt>, order: seq<Port>, faults: RestartFaults)
      returns (ok: bool)
      requires environment.Valid() && Ready(environment.Contents(), attempts) && Orders(order, frontends)
      modifies this`frontends, environment.exercises
      ensures environment.Valid()
      ensures var (xs, fine) := if services then ResetAll(old(environment.Contents()), attempts, 0)
                                else (old(environment.Contents()), false);
        environment.Contents() == xs
        && (frontends, ok) == if fine then Restarted(old(frontends), order, faults) else (old(frontends), false)
      ensures ok ==> AllRunning(environment.Contents()) && EveryFrontend(old(frontends), frontends)
    {
      ok := environment.Reset(services, attempts);
      if !ok { return; }
      ResetStartsEverything(old(environment.Contents()), attempts, 0);
      RestartedRuns(frontends, order, faults);
      hide *;
      ok := RestartFrontends(order, faults);
    }

    method MoveFrontends(order: seq<Port>, from: Machine, to: Machine, faults: Faults) returns (ok: bool)
      modifies this`frontends
      ensures (frontends, ok) == Moved(old(frontends), order, from, to, faults)
    {
      for i := 0 to |order|
        invariant Moved(frontends, order[i..], from, to, faults) == Moved(old(frontends), order, from, to, faults)
      {
        var p := order[i];
        if p in frontends && frontends[p] == from {
          if p in faults {
            frontends := frontends[p := faults[p]];
            return false;
          }
          frontends := frontends[p := to];
        }
      }
      ok := true;
    }

    method Suspend(inside: seq<Faults>, order: seq<Port>, faults: Faults) returns (ok: bool)
      requires environment.Valid() && |inside| == |environment.exercises| && Orders(order, frontends)
      modifies this`frontends, environment.exercises
      ensures environment.Valid()
      ensures var (xs, fine) := SuspendAll(old(environment.Contents()), inside, 0);
        environment.Contents() == xs
        && (frontends, ok) == if fine then Moved(old(frontends), order, Running, Suspended, faults)
                              else (old(frontends), false)
    {
      ok := environment.Suspend(inside);
      if !ok { return; }
      ok := MoveFrontends(order, Running, Suspended, faults);
    }

    method Resume(inside: seq<Faults>, order: seq<Port>, faults: Faults) returns (ok: bool)
      requires environment.Valid() && |inside| == |environment.exercises| && Orders(order, frontends)
      modifies this`frontends, environment.exercises
      ensures environment.Valid()
      ensures var (xs, fine) := ResumeAll(old(environment.Contents()), inside, 0);
        environment.Contents() == xs
        && (frontends, ok) == if fine then Moved(old(frontends), order, Suspended, Running, faults)
                              else (old(frontends), false)
    {
      ok := environment.Resume(inside);
      if !ok { return; }
      ok := MoveFrontends(order, Suspended, Running, faults);
    }
  }

  predicate EveryFrontend(before: Frontends, after: Frontends) {
    after.Keys == before.Keys && forall p :: p in after ==> after[p] == Running
  }

  // ----- Laws -----

  lemma {:induction false} RestartedAt(fs: Frontends, order: seq<Port>, faults: RestartFaults)
    requires Restarted(fs, order, faults).1
    ensures var out := Restarted(fs, order, faults).0;
      out.Keys == fs.Keys && forall p :: p in fs ==> out[p] == if p in order then Running else fs[p]
    decreases |order|
  {
    if order != [] {
      var p, rest := order[0], order[1..];
      assert forall q :: q in order <==> q == p || q in rest;
      RestartedAt(if p in fs then fs[p := Running] else fs, rest, faults);
    }
  }

  /** A restart without error leaves every frontend running, whatever state each was in. */
  lemma RestartedRuns(fs: Frontends, order: seq<Port>, faults: RestartFaults)
    requires Orders(order, fs)
    ensures Restarted(fs, order, faults).1 ==> EveryFrontend(fs, Restarted(fs, order, faults).0)
  {
    if Restarted(fs, order, faults).1 { RestartedAt(fs, order, faults); }
  }

  /** A sweep of restarts succeeds exactly if no frontend fails during the operations that its state needs. */
  lemma {:induction false} RestartSucceedsIff(fs: Frontends, order: seq<Port>, faults: RestartFaults)
    requires Distinct(order)
    ensures Restarted(fs, order, faults).1
            <==> forall p :: p in order && p in fs ==> !(p in faults && faults[p].at < |RestartOps(fs[p])|)
    decreases |order|
  {
    if order != [] {
      var p, rest := order[0], order[1..];
      assert forall q :: q in order <==> q == p || q in rest;
      assert forall j :: 0 <= j < |rest| ==> rest[j] == order[j + 1] != p;
      RestartSucceedsIff(if p in fs then fs[p := Running] else fs, rest, faults);
    }
  }

  /** The frontend at place `i` is the first whose restart fails. */
  ghost predicate StopsRestart(fs: Frontends, order: seq<Port>, faults: RestartFaults, i: nat) {
    && i < |order| && order[i] in fs && Fails(fs[order[i]], order[i], faults)
    && forall j :: 0 <= j < i && order[j] in fs ==> !Fails(fs[order[j]], order[j], faults)
  }

  lemma PrefixSplit(order: seq<Port>, i: nat)
    requires 0 < i <= |order|
    ensures order[..i] == [order[0]] + order[1..][..i - 1]
  {
  }

  /** A sweep that fails leaves the frontends before the failing one running, that one as it failed, and the rest as it
      was. */
  lemma {:induction false} FailingRestartLeaves(fs: Frontends, order: seq<Port>, faults: RestartFaults, i: nat)
    requires Distinct(order) && StopsRestart(fs, order, faults, i)
    ensures var out := Restarted(fs, order, faults).0;
      && out.Keys == fs.Keys
      && forall p :: p in fs ==>
           out[p] == if p == order[i] then faults[p].left else if p in order[..i] then Running else fs[p]
    decreases |order|
  {
    if i > 0 {
      var p, rest := order[0], order[1..];
      var next := if p in fs then fs[p := Running] else fs;
      PrefixSplit(order, i);
      assert forall j :: 0 <= j < |rest| ==> rest[j] == order[j + 1] != p;
      FailingRestartLeaves(next, rest, faults, i - 1);
    }
  }

  // ----- The operations of a restart -----

  function AfterOps(m: Machine, ops: seq<VmOp>): Option<Machine> {
    if ops == [] then Some(m)
    else match AfterOps(m, ops[..|ops| - 1])
         case None => None
         case Some(n) => After(n, ops[|ops| - 1])
  }

  /** The operations boot the machine: the last one starts it when it is stopped. */
  predicate Boots(m: Machine, ops: seq<VmOp>) {
    ops != [] && AfterOps(m, ops[..|ops| - 1]) == Some(Stopped) && ops[|ops| - 1] == Start
  }

  /** Restart boots every frontend anew, whatever its state, and no fewer operations would. */
  lemma RestartBootsShortest(m: Machine, ops: seq<VmOp>)
    ensures Boots(m, RestartOps(m))
    ensures Boots(m, ops) ==> |ops| >= |RestartOps(m)|
  {
    assert AfterOps(m, []) == Some(m);
    assert RestartOps(m)[..1][..0] == [];
    if |RestartOps(m)| == 3 { assert RestartOps(m)[..2][..1] == RestartOps(m)[..1]; }
    if |ops| == 1 { assert ops[..0] == []; }
    if |ops| == 2 { assert ops[..1][..0] == []; }
  }

  lemma {:induction false} MovedAt(fs: Frontends, order: seq<Port>, from: Machine, to: Machine, faults: Faults)
    requires from != to && Moved(fs, order, from, to, faults).1
    ensures var out := Moved(fs, order, from, to, faults).0;
      out.Keys == fs.Keys && forall p :: p in fs ==> out[p] == if p in order && fs[p] == from then to else fs[p]
    decreases |order|
  {
    if order != [] {
      var p, rest := order[0], order[1..];
      assert forall q :: q in order <==> q == p || q in rest;
      MovedAt(if p in fs && fs[p] == from then fs[p := to] else fs, rest, from, to, faults);
    }
  }

  /** A sweep succeeds exactly if no frontend in the state to be moved fails. */
  lemma {:induction false} MoveSucceedsIff(fs: Frontends, order: seq<Port>, from: Machine, to: Machine, faults: Faults)
    requires from != to
    ensures Moved(fs, order, from, to, faults).1
            <==> forall p :: p in order && p in fs && fs[p] == from ==> p !in faults
    decreases |order|
  {
    if order != [] {
      var p, rest := order[0], order[1..];
      assert forall q :: q in order <==> q == p || q in rest;
      MoveSucceedsIff(if p in fs && fs[p] == from then fs[p := to] else fs, rest, from, to, faults);
    }
  }

  /** The frontend at place `i` is the first of the sweep that fails. */
  ghost predicate StopsMove(fs: Frontends, order: seq<Port>, from: Machine, faults: Faults, i: nat) {
    && i < |order| && order[i] in fs && fs[order[i]] == from && order[i] in faults
    && forall j :: 0 <= j < i && order[j] in fs && fs[order[j]] == from ==> order[j] !in faults
  }

  /** A sweep that fails leaves the frontends before the failing one moved, that one as it failed, and the rest as it
      was. */
  lemma {:induction false} FailingMoveLeaves(fs: Frontends, order: seq<Port>, from: Machine, to: Machine,
                                             faults: Faults, i: nat)
    requires from != to && Distinct(order) && StopsMove(fs, order, from, faults, i)
    ensures var out := Moved(fs, order, from, to, faults).0;
      && out.Keys == fs.Keys
      && forall p :: p in fs ==>
           out[p] == if p == order[i] then faults[p] else if p in order[..i] && fs[p] == from then to else fs[p]
    decreases |order|
  {
    if i > 0 {
      var p, rest := order[0], order[1..];
      var next := if p in fs && fs[p] == from then fs[p := to] else fs;
      PrefixSplit(order, i);
      assert forall j :: 0 <= j < |rest| ==> rest[j] == order[j + 1] != p;
      FailingMoveLeaves(next, rest, from, to, faults, i - 1);
    }
  }

  /** Suspending and resuming the frontends: those that ran or had been suspended run, the others are as before. */
  lemma FrontendsSuspendThenResume(fs: Frontends, o1: seq<Port>, o2: seq<Port>, f: Faults, g: Faults)
    requires Orders(o1, fs) && Orders(o2, fs) && Moved(fs, o1, Running, Suspended, f).1
    requires Moved(Moved(fs, o1, Running, Suspended, f).0, o2, Suspended, Running, g).1
    ensures var out := Moved(Moved(fs, o1, Running, Suspended, f).0, o2, Suspended, Running, g).0;
      out == map p | p in fs :: if fs[p] == Running || fs[p] == Suspended then Running else fs[p]
  {
    MovedAt(fs, o1, Running, Suspended, f);
    MovedAt(Moved(fs, o1, Running, Suspended, f).0, o2, Suspended, Running, g);
  }

  lemma {:induction false} NoFaultsNoFailure(fs: Frontends, order: seq<Port>)
    ensures Restarted(fs, order, map[]).1
    decreases |order|
  {
    if order != [] {
      NoFaultsNoFailure(if order[0] in fs then fs[order[0] := Running] else fs, order[1..]);
    }
  }

  lemma {:induction false} SomeOrder(ports: set<Port>) returns (order: seq<Port>)
    ensures Distinct(order) && forall p :: p in order <==> p in ports
    decreases |ports|
  {
    if ports == {} {
      order := [];
    } else {
      var p :| p in ports;
      var rest := SomeOrder(ports - {p});
      order := [p] + rest;
    }
  }

  /** Restart can report success, whatever the states of the machines and frontends, exactly when no exercise of the
      lab is static with containers. */
  lemma LabRestartsIff(xs: seq<Ex>, fs: Frontends)
    requires forall i :: 0 <= i < |xs| ==> Addressed(xs[i].config, xs[i].data)
    ensures (exists attempts, order, faults ::
               && Ready(xs, attempts) && ResetAll(xs, attempts, 0).1
               && Orders(order, fs) && Restarted(fs, order, faults).1)
            <==> forall i :: 0 <= i < |xs| ==> !Stuck(xs[i].config)
  {
    hide ResetAll, Restarted;
    EnvironmentResetsIff(xs);
    if attempts :| Ready(xs, attempts) && ResetAll(xs, attempts, 0).1 {
      var order := SomeOrder(fs.Keys);
      NoFaultsNoFailure(fs, order);
      assert Orders(order, fs);
    }
  }
}
