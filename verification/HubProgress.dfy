/** The hub's own goroutines always come to rest, and after Close they rest only when everything is done. */
module HubProgress {
  import opened Hub
  import opened HubInvariants
  import opened HubTheorems

  function WorkerWeight(p: Worker): nat {
    match p
    case Unborn => 0
    case Idle => 1
    case Received => 10
    case Making => 9
    case Offering(_) => 8
    case Handed => 2
    case Refused(_) => 3
    case Closing(_) => 2
    case Exited => 0
  }

  function CoordWeight(s: State): nat {
    match s.co
    case NotStarted => |s.started.Values|
    case Selecting => 4 + |s.started.Values|
    case Enqueueing(_) => 7 + |s.started.Values|
    case Deciding => 6 + |s.started.Values|
    case Signalling => 5 + |s.started.Values|
    case Waiting => 3 + |s.started.Values|
    case Draining => 2 + |s.started.Values|
    case Sweeping(left) => 1 + |left|
    case Finished => 0
  }

  // The work that is certain: everything but tokens the coordinator may still issue.
  function Work(s: State): int
    requires s.sent <= 2
  {
    40 * (2 - s.sent) + WorkerWeight(s.w0) + WorkerWeight(s.w1) + 5 * |s.labs| + CoordWeight(s)
  }

  function Potential(c: Config, s: State): int
    requires s.sent <= 2
  {
    10 * (c.cap - Tokens(s)) + Work(s)
  }

  lemma ValuesGrow(m: map<string, Lab>, lab: Lab)
    ensures |m[lab.tag := lab].Values| <= |m.Values| + 1
  {
    assert m[lab.tag := lab].Values <= m.Values + {lab};
    SubsetSize(m[lab.tag := lab].Values, m.Values + {lab});
  }

  lemma {:induction false} SubsetSize(a: set<Lab>, b: set<Lab>)
    requires a <= b
    ensures |a| <= |b|
  {
    assert b == a + (b - a);
  }

  lemma FirstWorkerLowersPotential(c: Config, s: State, e: Event)
    requires s.sent <= 2 && WorkerEnabled(c, s, e) && OwnMove(e) && !e.w
    ensures Potential(c, WorkerMove(c, s, e)) < Potential(c, s)
  {
    assert CoordWeight(WorkerMove(c, s, e)) == CoordWeight(s);
    hide CoordWeight;
  }

  lemma SecondWorkerLowersPotential(c: Config, s: State, e: Event)
    requires s.sent <= 2 && WorkerEnabled(c, s, e) && OwnMove(e) && e.w
    ensures Potential(c, WorkerMove(c, s, e)) < Potential(c, s)
  {
    assert CoordWeight(WorkerMove(c, s, e)) == CoordWeight(s);
    hide CoordWeight;
  }

  lemma StarterLowersPotential(c: Config, s: State, e: Event)
    requires WorkerEnabled(c, s, e) && !OwnMove(e) && (s.sent < 2 ==> s.co.NotStarted?)
    ensures s.sent < 2 && WorkerMove(c, s, e).sent <= 2
    ensures Potential(c, WorkerMove(c, s, e)) < Potential(c, s)
  {
  }

  lemma ReceiveLowersPotential(c: Config, s: State, e: Event)
    requires s.sent <= 2 && CoordEnabled(c, s, e) && (e.CoordReceive? || e.CoordMeet?)
    ensures Potential(c, CoordMove(c, s, e)) < Potential(c, s)
  {
    ValuesGrow(s.started, CoordMove(c, s, e).co.lab);
    if e.CoordReceive? {
    } else if e.w {
    } else {
    }
  }

  lemma CoordLowersPotential(c: Config, s: State, e: Event)
    requires s.sent <= 2 && CoordEnabled(c, s, e) && !e.CoordReceive? && !e.CoordMeet?
    ensures Potential(c, CoordMove(c, s, e)) < Potential(c, s)
  {
    match e
    case CoordSignal(w) => if w {} else {}
    case _ =>
  }

  lemma OutsideKeepsPotential(c: Config, s: State, e: Event)
    requires s.sent <= 2 && OutsideEnabled(c, s, e)
    ensures OutsideMove(c, s, e).sent <= 2
    ensures Potential(c, OutsideMove(c, s, e)) <= Potential(c, s)
  {
    hide OutsideMove, OutsideEnabled;
    OutsideFrame(c, s, e);
  }

  lemma StepLowersPotential(c: Config, s: State, e: Event)
    requires s.sent <= 2 && (s.sent < 2 ==> s.co.NotStarted?) && Next(c, s, e).Some?
    ensures Next(c, s, e).value.sent <= 2
    ensures Potential(c, Next(c, s, e).value) <= Potential(c, s) - B(HubEvent(e))
  {
    hide CoordWeight, WorkerWeight, Tokens;
    if WorkerEnabled(c, s, e) {
      if !OwnMove(e) {
        StarterLowersPotential(c, s, e);
      } else if e.w {
        SecondWorkerLowersPotential(c, s, e);
      } else {
        FirstWorkerLowersPotential(c, s, e);
      }
    } else if CoordEnabled(c, s, e) {
      if e.CoordReceive? || e.CoordMeet? {
        ReceiveLowersPotential(c, s, e);
      } else {
        CoordLowersPotential(c, s, e);
      }
    } else if ControlEnabled(c, s, e) {
      ControlLowersPotential(c, s, e);
    } else {
      OutsideKeepsPotential(c, s, e);
    }
  }

  lemma ControlLowersPotential(c: Config, s: State, e: Event)
    requires s.sent <= 2 && ControlEnabled(c, s, e)
    ensures Potential(c, ControlMove(c, s, e)) < Potential(c, s)
  {
  }

  function HubEvents(es: seq<Event>): nat {
    if es == [] then 0 else HubEvents(es[..|es| - 1]) + B(HubEvent(es[|es| - 1]))
  }

  lemma {:induction false} RunSpendsPotential(c: Config, es: seq<Event>, s: State)
    requires Run(c, es, s)
    ensures s.sent <= 2 && HubEvents(es) + Potential(c, s) <= Potential(c, Initial())
  {
    hide Next, Potential;
    if es != [] {
      var t := Exec(c, Initial(), es[..|es| - 1]).value;
      RunSpendsPotential(c, es[..|es| - 1], t);
      RunKeepsGood(c, es[..|es| - 1], t);
      StepLowersPotential(c, t, es[|es| - 1]);
    }
  }

  /** No run contains more moves of the hub's goroutines than this, whatever consumers do in between: the hub
      cannot be kept busy for ever. */
  lemma HubComesToRest(c: Config, es: seq<Event>, s: State)
    requires Run(c, es, s) && 2 <= c.cap
    ensures HubEvents(es) <= 10 * (c.cap + |s.received| - |s.started|) + 61
    ensures DistinctTags(s.received) ==> HubEvents(es) <= 10 * c.cap + 61
  {
    RunSpendsPotential(c, es, s);
    assert Budget(c, s) && Registry(s.received, s.started) by { RunKeepsGood(c, es, s); }
    if DistinctTags(s.received) { DistinctTagsAllKept(s.received, s.started); }
    assert Work(s) >= 0;
  }

  /** After Close the hub rests only when coordinator and workers have returned: nothing deadlocks. */
  lemma RestAfterCloseIsComplete(c: Config, es: seq<Event>, s: State)
    requires Run(c, es, s) && s.stop
    requires forall e :: HubEvent(e) ==> !Enabled(c, s, e)
    ensures Complete(s)
  {
    assert Shape(s) && Buffered(c, s) && Budget(c, s) by { RunKeepsGood(c, es, s); }
    WorkersStuck(c, s, false);
    WorkersStuck(c, s, true);
    if !s.co.Finished? {
      var e := CoordinatorCanMove(c, s);
      assert false;
    }
  }

  // A worker with no move of its own is waiting for a token, or has none to wait for.
  lemma WorkersStuck(c: Config, s: State, w: bool)
    requires Shape(s) && s.stop
    requires forall e :: HubEvent(e) ==> !Enabled(c, s, e)
    ensures (Pc(s, w).Idle? && !s.readyClosed) || Pc(s, w).Exited?
  {
    hide CoordEnabled, ControlEnabled, OutsideEnabled;
    assert !Enabled(c, s, WorkerAdd(w)) && !Enabled(c, s, WorkerMake(w, "")) && !Enabled(c, s, WorkerRefuse(w));
    assert !Enabled(c, s, WorkerDone(w)) && !Enabled(c, s, WorkerClose(w)) && !Enabled(c, s, WorkerExit(w));
  }

  lemma CoordinatorCanMove(c: Config, s: State) returns (e: Event)
    requires Shape(s) && Budget(c, s) && s.stop && !s.co.Finished?
    requires forall w :: (Pc(s, w).Idle? && !s.readyClosed) || Pc(s, w).Exited?
    ensures HubEvent(e) && Enabled(c, s, e)
  {
    assert Pc(s, false) == s.w0 && Pc(s, true) == s.w1;
    match s.co {
      case Selecting => e := CoordStop;
      case Enqueueing(_) => e := CoordSkip;
      case Deciding => e := CoordDecide;
      case Signalling => e := CoordSignal(false);
      case Waiting => e := CoordWaitDone;
      case Draining => e := if s.labs == [] then CoordDrained else CoordDrain;
      case Sweeping(left) =>
        if left == {} {
          e := CoordSwept;
        } else {
          var l :| l in left;
          e := CoordSweep(l);
        }
    }
  }

  // ----- No token is lost -----

  function Min(a: int, b: int): int { if a <= b then a else b }

  /** Before Close, the tokens issued, with the one the coordinator owes if the capacity leaves room for another lab,
      are two more than the labs received, up to the capacity. */
  ghost predicate Supplied(c: Config, s: State)
    requires s.sent <= 2
  {
    !s.stop ==>
      Tokens(s) + (if |s.received| + 2 <= c.cap then Hand(s) else 0) >= Min(|s.received| + 2, c.cap)
  }

  /** Before Close, nothing has been closed. */
  ghost predicate NothingClosed(s: State) { !s.stop ==> s.closed == multiset{} }

  lemma StarterKeepsSupplied(c: Config, s: State, e: Event)
    requires s.sent <= 2 && Supplied(c, s) && WorkerEnabled(c, s, e) && !OwnMove(e) && Shape(s)
    ensures WorkerMove(c, s, e).sent <= 2 && Supplied(c, WorkerMove(c, s, e))
  {
    if e.StartFirst? {} else {}
  }

  lemma FirstKeepsSupplied(c: Config, s: State, e: Event)
    requires s.sent <= 2 && Supplied(c, s) && WorkerEnabled(c, s, e) && OwnMove(e) && !e.w
    ensures Supplied(c, WorkerMove(c, s, e))
  {
  }

  lemma SecondKeepsSupplied(c: Config, s: State, e: Event)
    requires s.sent <= 2 && Supplied(c, s) && WorkerEnabled(c, s, e) && OwnMove(e) && e.w
    ensures Supplied(c, WorkerMove(c, s, e))
  {
  }

  lemma CoordKeepsSupplied(c: Config, s: State, e: Event)
    requires s.sent <= 2 && Supplied(c, s) && CoordEnabled(c, s, e)
    ensures Supplied(c, CoordMove(c, s, e))
  {
  }

  lemma ControlKeepsSupplied(c: Config, s: State, e: Event)
    requires s.sent <= 2 && Supplied(c, s) && ControlEnabled(c, s, e) && Shape(s) && |s.started| == |s.received|
    ensures Supplied(c, ControlMove(c, s, e))
  {
  }

  lemma OutsideKeepsSupplied(c: Config, s: State, e: Event)
    requires s.sent <= 2 && Supplied(c, s) && OutsideEnabled(c, s, e)
    ensures OutsideMove(c, s, e).sent <= 2 && Supplied(c, OutsideMove(c, s, e))
  {
    OutsideFrame(c, s, e);
    hide OutsideMove, OutsideEnabled;
  }

  lemma StepKeepsSupplied(c: Config, s: State, e: Event)
    requires s.sent <= 2 && Supplied(c, s) && Shape(s) && |s.started| == |s.received| && Next(c, s, e).Some?
    ensures Next(c, s, e).value.sent <= 2 && Supplied(c, Next(c, s, e).value)
  {
    StepKeepsShape(c, s, e);
    assert Next(c, s, e).value.sent <= 2;
    hide WorkerMove, CoordMove, ControlMove, OutsideMove, Supplied, Shape;
    if WorkerEnabled(c, s, e) {
      if !OwnMove(e) {
        StarterKeepsSupplied(c, s, e);
      } else if e.w {
        SecondKeepsSupplied(c, s, e);
      } else {
        FirstKeepsSupplied(c, s, e);
      }
    } else if CoordEnabled(c, s, e) {
      CoordKeepsSupplied(c, s, e);
    } else if ControlEnabled(c, s, e) {
      ControlKeepsSupplied(c, s, e);
    } else {
      OutsideKeepsSupplied(c, s, e);
    }
  }

  lemma WorkerClosesAfterStop(c: Config, s: State, e: Event)
    requires NothingClosed(s) && Shape(s) && WorkerEnabled(c, s, e)
    ensures NothingClosed(WorkerMove(c, s, e)) && WorkerMove(c, s, e).received == s.received
  {
    if e.WorkerClose? { if e.w {} else {} }
  }

  lemma CoordClosesAfterStop(c: Config, s: State, e: Event)
    requires NothingClosed(s) && Shape(s) && CoordEnabled(c, s, e)
    ensures NothingClosed(CoordMove(c, s, e)) && s.received <= CoordMove(c, s, e).received
  {
  }

  lemma StepKeepsNothingClosed(c: Config, s: State, e: Event)
    requires NothingClosed(s) && Shape(s) && Next(c, s, e).Some?
    ensures NothingClosed(Next(c, s, e).value) && s.received <= Next(c, s, e).value.received
  {
    hide WorkerMove, WorkerEnabled, CoordMove, CoordEnabled, OutsideMove, OutsideEnabled, ControlEnabled, ControlPc;
    if WorkerEnabled(c, s, e) {
      WorkerClosesAfterStop(c, s, e);
    } else if CoordEnabled(c, s, e) {
      CoordClosesAfterStop(c, s, e);
    } else if !ControlEnabled(c, s, e) {
      OutsideFrame(c, s, e);
    }
  }

  lemma {:induction false} RunKeepsSupplied(c: Config, es: seq<Event>, s: State)
    requires Run(c, es, s) && DistinctTags(s.received) && 2 <= c.cap
    ensures s.sent <= 2 && Supplied(c, s) && NothingClosed(s)
  {
    hide Next, Supplied, NothingClosed;
    if es == [] {
      SuppliedAtFirst(c);
    } else {
      var t := Exec(c, Initial(), es[..|es| - 1]).value;
      var e := es[|es| - 1];
      NothingClosedInRun(c, es[..|es| - 1], t);
      assert Shape(t) && Registry(t.received, t.started) by { RunKeepsGood(c, es[..|es| - 1], t); }
      StepKeepsNothingClosed(c, t, e);
      assert DistinctTags(t.received);
      RunKeepsSupplied(c, es[..|es| - 1], t);
      DistinctTagsAllKept(t.received, t.started);
      StepKeepsSupplied(c, t, e);
    }
  }

  lemma SuppliedAtFirst(c: Config)
    ensures Supplied(c, Initial()) && NothingClosed(Initial())
  {
  }

  lemma {:induction false} NothingClosedInRun(c: Config, es: seq<Event>, s: State)
    requires Run(c, es, s)
    ensures NothingClosed(s)
  {
    hide Next;
    if es != [] {
      var t := Exec(c, Initial(), es[..|es| - 1]).value;
      NothingClosedInRun(c, es[..|es| - 1], t);
      RunKeepsGood(c, es[..|es| - 1], t);
      StepKeepsNothingClosed(c, t, es[|es| - 1]);
    }
  }

  // No lab waits for the coordinator at its select.
  lemma NothingWaits(c: Config, s: State, w: bool)
    requires s.co.Selecting? && !s.labsClosed
    requires forall e :: HubEvent(e) ==> !Enabled(c, s, e)
    ensures s.labs == [] && !Pc(s, w).Offering?
  {
    hide ControlEnabled, OutsideEnabled;
    assert !Enabled(c, s, CoordReceive);
    assert !Enabled(c, s, CoordMeet(w)) && !Enabled(c, s, WorkerSend(w));
  }

  // A worker waits for a token, or has left.
  lemma AllPassedOn(c: Config, s: State, w: bool)
    requires Shape(s) && s.co.Selecting?
    requires forall e :: HubEvent(e) ==> !Enabled(c, s, e)
    ensures (Pc(s, w).Idle? || Pc(s, w).Exited?) && s.labs == []
  {
    NothingWaits(c, s, w);
    hide CoordEnabled, ControlEnabled, OutsideEnabled;
    assert !Enabled(c, s, WorkerAdd(w)) && !Enabled(c, s, WorkerMake(w, ""));
    assert !Enabled(c, s, WorkerDone(w)) && !Enabled(c, s, WorkerClose(w));
  }

  lemma SameSize(a: seq<Lab>, b: seq<Lab>)
    requires forall l :: multiset(a)[l] == multiset(b)[l]
    ensures |a| == |b|
  {
    assert multiset(a) == multiset(b);
    assert |a| == |multiset(a)| && |b| == |multiset(b)|;
  }

  // All labs built have been received.
  lemma AllReceived(c: Config, s: State)
    requires Good(c, s) && s.co.Selecting? && s.labs == [] && s.closed == multiset{}
    requires (s.w0.Idle? || s.w0.Exited?) && (s.w1.Idle? || s.w1.Exited?)
    ensures |s.received| == |s.created|
  {
    forall l ensures multiset(s.received)[l] == multiset(s.created)[l] { assert ConservedAt(s, l); }
    SameSize(s.received, s.created);
  }

  /** No token is lost: a hub that has not been closed and is out of moves with its coordinator at the select has built
      exactly as many labs as its capacity. */
  lemma RestMeansFull(c: Config, es: seq<Event>, s: State)
    requires Run(c, es, s) && 2 <= c.cap && DistinctTags(s.received) && !s.stop && s.co.Selecting?
    requires forall e :: HubEvent(e) ==> !Enabled(c, s, e)
    ensures |s.created| == c.cap
  {
    CreatedBound(c, es, s);
    RunKeepsSupplied(c, es, s);
    RunKeepsGood(c, es, s);
    assert Shape(s);
    hide Run, Enabled, Good, Shape;
    AllPassedOn(c, s, false);
    AllPassedOn(c, s, true);
    AllReceived(c, s);
    assert s.sent == 2 by { SelectingMeansBothSent(s); }
  }

  lemma SelectingMeansBothSent(s: State)
    requires Shape(s) && s.co.Selecting?
    ensures s.sent == 2
  {
  }
}
