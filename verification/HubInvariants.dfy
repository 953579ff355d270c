/** What every move of the hub keeps. */
module HubInvariants {
  import opened Wrappers
  import opened Hub

  function B(b: bool): nat { if b then 1 else 0 }

  // A worker that holds a token whose lab has not left it.
  predicate Busy(p: Worker) { p.Received? || p.Making? || p.Offering? }

  function InFlight(s: State): nat { B(Busy(s.w0)) + B(Busy(s.w1)) + |s.labs| }

  // The lab the coordinator has taken and for which it has not decided on a token.
  function Hand(s: State): nat { B(s.co.Enqueueing? || s.co.Deciding? || s.co.Signalling?) }

  /** Two tokens circulate: with a worker, as a lab in `labs`, with the coordinator, or still with NewHub. */
  ghost predicate Buffered(c: Config, s: State) {
    && s.sent <= 2
    && InFlight(s) + Hand(s) + (2 - s.sent) <= 2
    && |s.queue| <= c.ChannelSize()
  }

  predicate Counted(p: Worker) { p.Making? || p.Offering? || p.Handed? || p.Refused? }

  /** How the program counters, the flags and the wait group go together. */
  ghost predicate Shape(s: State) {
    && s.sent <= 2
    && (s.sent < 2 <==> s.co.NotStarted?)
    && (s.sent < 2 ==> !s.stop && !s.readyClosed)
    && (s.sent == 0 ==> s.w0.Idle?)
    && (s.w1.Unborn? <==> s.sent == 0) && !s.w0.Unborn?
    && s.wg == B(Counted(s.w0)) + B(Counted(s.w1))
    && (s.co.Waiting? || s.co.Draining? || s.co.Sweeping? || s.co.Finished? ==> s.stop)
    && (s.w0.Refused? || s.w0.Closing? || s.w1.Refused? || s.w1.Closing? ==> s.stop)
    && (s.labsClosed <==> s.co.Draining? || s.co.Sweeping? || s.co.Finished?)
    && (s.co.Sweeping? || s.co.Finished? ==> |s.labs| == 0)
    && (s.co.Finished? ==> s.readyClosed)
    && (s.w0.Exited? || s.w1.Exited? ==> s.readyClosed)
  }

  // Tokens ever issued or still to be issued by NewHub.
  function Tokens(s: State): nat
    requires s.sent <= 2
  {
    |s.created| + B(s.w0.Received? || s.w0.Making?) + B(s.w1.Received? || s.w1.Making?) + (2 - s.sent)
  }

  /** The bookkeeping behind the two equality tests of the coordinator. */
  ghost predicate Budget(c: Config, s: State) {
    && s.sent <= 2
    && |s.received| + |s.labs| + B(s.w0.Offering?) + B(s.w1.Offering?) <= |s.created|
    && Tokens(s) + Hand(s) <= |s.received| + 2
    && (s.readyClosed && !s.co.Finished? ==> 2 <= c.cap && c.cap - 1 <= |s.started|)
    && (s.co.Deciding? ==> 1 <= |s.started|)
    && (s.co.Enqueueing? ==> 1 <= |s.started|)
    && (2 <= c.cap && c.cap - 1 <= |s.started| ==>
          Tokens(s) - |s.received| + |s.started| - (c.cap - 1) <= 1 && !s.co.Signalling?)
  }

  // How often worker `p` holds lab `l`.
  function Held(p: Worker, l: Lab): nat { B((p.Offering? || p.Refused? || p.Closing?) && p.lab == l) }

  // Whether the final sweep has closed the registered lab `l`.
  ghost predicate Swept(s: State, l: Lab) {
    l in s.started.Values && (s.co.Finished? || (s.co.Sweeping? && l !in s.co.left))
  }

  ghost predicate Numbered(s: State) { forall i :: 0 <= i < |s.created| ==> s.created[i].id == i }

  ghost predicate SweepsStarted(s: State) { s.co.Sweeping? ==> s.co.left <= s.started.Values }

  /** Every lab ever created is in exactly one place, closed labs included; a registered lab that the final
      sweep has closed shows up in both `received` and `closed`. */
  ghost predicate ConservedAt(s: State, l: Lab) {
    && Held(s.w0, l) + Held(s.w1, l) + multiset(s.labs)[l] + multiset(s.received)[l] + s.closed[l]
       == multiset(s.created)[l] + B(Swept(s, l))
    && multiset(s.received)[l] <= multiset(s.created)[l]
  }

  /** `startedLabs` maps each tag to the last lab received under it. */
  ghost predicate Registry(received: seq<Lab>, started: map<string, Lab>) {
    && |started| <= |received|
    && (forall l :: l in received ==> l.tag in started)
    && (forall t :: t in started ==> started[t] in received && started[t].tag == t)
    && (forall i :: 0 <= i < |received| && started[received[i].tag] != received[i] ==>
          exists j :: i < j < |received| && received[j].tag == received[i].tag)
  }

  // How often `l` is in a place from which it may be handed out.
  function Circulating(s: State, l: Lab): nat {
    B(s.co.Enqueueing? && s.co.lab == l) + B(s.forwarding == Some(l))
    + multiset(s.queue)[l] + s.taken[l] + s.updating[l] + multiset(s.deallocated)[l]
  }

  ghost predicate ExclusiveAt(s: State, l: Lab) {
    Held(s.w0, l) + Held(s.w1, l) + multiset(s.labs)[l] + Circulating(s, l) <= multiset(s.created)[l]
  }

  // The moves a worker makes by itself.
  predicate OwnMove(e: Event) { !e.StartFirst? && !e.StartSecond? }

  // Consumers, Update and the forwarder move labs that have been queued, and may take one from the coordinator.
  lemma OutsideFrame(c: Config, s: State, e: Event)
    requires OutsideEnabled(c, s, e)
    ensures var t := OutsideMove(c, s, e);
      && t.w0 == s.w0 && t.w1 == s.w1 && t.sent == s.sent && t.wg == s.wg && t.created == s.created && t.labs == s.labs
      && t.started == s.started && t.received == s.received && t.closed == s.closed
      && t.labsClosed == s.labsClosed && t.readyClosed == s.readyClosed && (t.stop == s.stop || (e.Close? && t.stop))
      && (t.co == s.co || (s.co.Enqueueing? && t.co.Deciding?))
      && |t.queue| <= if |s.queue| < c.ChannelSize() then c.ChannelSize() else |s.queue|
  {
  }

  lemma SplitHead(labs: seq<Lab>, l: Lab)
    requires labs != []
    ensures multiset(labs)[l] == B(labs[0] == l) + multiset(labs[1..])[l]
  {
    assert labs == [labs[0]] + labs[1..];
  }

  lemma FirstKeepsBuffered(c: Config, s: State, e: Event)
    requires Buffered(c, s) && WorkerEnabled(c, s, e) && OwnMove(e) && !e.w
    ensures Buffered(c, WorkerMove(c, s, e))
  {
  }

  lemma SecondKeepsBuffered(c: Config, s: State, e: Event)
    requires Buffered(c, s) && WorkerEnabled(c, s, e) && OwnMove(e) && e.w
    ensures Buffered(c, WorkerMove(c, s, e))
  {
  }

  lemma CoordKeepsBuffered(c: Config, s: State, e: Event)
    requires Buffered(c, s) && CoordEnabled(c, s, e)
    ensures Buffered(c, CoordMove(c, s, e))
  {
  }

  lemma StarterKeepsBuffered(c: Config, s: State, e: Event)
    requires Buffered(c, s) && WorkerEnabled(c, s, e) && !OwnMove(e)
    ensures Buffered(c, WorkerMove(c, s, e))
  {
  }

  lemma ControlKeepsBuffered(c: Config, s: State, e: Event)
    requires Buffered(c, s) && ControlEnabled(c, s, e)
    ensures Buffered(c, ControlMove(c, s, e))
  {
  }

  lemma OutsideKeepsBuffered(c: Config, s: State, e: Event)
    requires Buffered(c, s) && OutsideEnabled(c, s, e)
    ensures Buffered(c, OutsideMove(c, s, e))
  {
    OutsideFrame(c, s, e);
    hide OutsideMove;
  }

  lemma StepKeepsBuffered(c: Config, s: State, e: Event)
    requires Buffered(c, s) && Next(c, s, e).Some?
    ensures Buffered(c, Next(c, s, e).value)
  {
    hide WorkerMove, CoordMove, ControlMove, OutsideMove, Buffered;
    if WorkerEnabled(c, s, e) {
      if !OwnMove(e) {
        StarterKeepsBuffered(c, s, e);
      } else if e.w {
        SecondKeepsBuffered(c, s, e);
      } else {
        FirstKeepsBuffered(c, s, e);
      }
    } else if CoordEnabled(c, s, e) {
      CoordKeepsBuffered(c, s, e);
    } else if ControlEnabled(c, s, e) {
      ControlKeepsBuffered(c, s, e);
    } else {
      OutsideKeepsBuffered(c, s, e);
    }
  }

  lemma FirstKeepsShape(c: Config, s: State, e: Event)
    requires Shape(s) && WorkerEnabled(c, s, e) && OwnMove(e) && !e.w
    ensures Shape(WorkerMove(c, s, e))
  {
  }

  lemma SecondKeepsShape(c: Config, s: State, e: Event)
    requires Shape(s) && WorkerEnabled(c, s, e) && OwnMove(e) && e.w
    ensures Shape(WorkerMove(c, s, e))
  {
  }

  lemma CoordKeepsShape(c: Config, s: State, e: Event)
    requires Shape(s) && CoordEnabled(c, s, e)
    ensures Shape(CoordMove(c, s, e))
  {
  }

  lemma StarterKeepsShape(c: Config, s: State, e: Event)
    requires Shape(s) && WorkerEnabled(c, s, e) && !OwnMove(e)
    ensures Shape(WorkerMove(c, s, e))
  {
  }

  lemma ControlKeepsShape(c: Config, s: State, e: Event)
    requires Shape(s) && ControlEnabled(c, s, e)
    ensures Shape(ControlMove(c, s, e))
  {
  }

  lemma OutsideKeepsShape(c: Config, s: State, e: Event)
    requires Shape(s) && OutsideEnabled(c, s, e)
    ensures Shape(OutsideMove(c, s, e))
  {
    OutsideFrame(c, s, e);
    hide OutsideMove;
  }

  lemma StepKeepsShape(c: Config, s: State, e: Event)
    requires Shape(s) && Next(c, s, e).Some?
    ensures Shape(Next(c, s, e).value)
  {
    hide WorkerMove, CoordMove, ControlMove, OutsideMove, Shape;
    if WorkerEnabled(c, s, e) {
      if !OwnMove(e) {
        StarterKeepsShape(c, s, e);
      } else if e.w {
        SecondKeepsShape(c, s, e);
      } else {
        FirstKeepsShape(c, s, e);
      }
    } else if CoordEnabled(c, s, e) {
      CoordKeepsShape(c, s, e);
    } else if ControlEnabled(c, s, e) {
      ControlKeepsShape(c, s, e);
    } else {
      OutsideKeepsShape(c, s, e);
    }
  }

  lemma FirstKeepsBudget(c: Config, s: State, e: Event)
    requires Budget(c, s) && WorkerEnabled(c, s, e) && OwnMove(e) && !e.w
    ensures Budget(c, WorkerMove(c, s, e))
  {
  }

  lemma SecondKeepsBudget(c: Config, s: State, e: Event)
    requires Budget(c, s) && WorkerEnabled(c, s, e) && OwnMove(e) && e.w
    ensures Budget(c, WorkerMove(c, s, e))
  {
  }

  lemma ReceiveKeepsBudget(c: Config, s: State, e: Event)
    requires Budget(c, s) && CoordEnabled(c, s, e) && (e.CoordReceive? || e.CoordMeet?)
    ensures Budget(c, CoordMove(c, s, e))
  {
    var t := CoordMove(c, s, e);
    assert |t.received| == |s.received| + 1 && |s.started| <= |t.started| <= |s.started| + 1;
    if e.CoordReceive? {} else {}
  }

  lemma CoordKeepsBudget(c: Config, s: State, e: Event)
    requires Budget(c, s) && CoordEnabled(c, s, e) && !e.CoordReceive? && !e.CoordMeet?
    ensures Budget(c, CoordMove(c, s, e))
  {
  }

  lemma StarterKeepsBudget(c: Config, s: State, e: Event)
    requires Budget(c, s) && WorkerEnabled(c, s, e) && !OwnMove(e)
    ensures Budget(c, WorkerMove(c, s, e))
  {
  }

  lemma ControlKeepsBudget(c: Config, s: State, e: Event)
    requires Budget(c, s) && ControlEnabled(c, s, e)
    ensures Budget(c, ControlMove(c, s, e))
  {
  }

  lemma OutsideKeepsBudget(c: Config, s: State, e: Event)
    requires Budget(c, s) && OutsideEnabled(c, s, e)
    ensures Budget(c, OutsideMove(c, s, e))
  {
    OutsideFrame(c, s, e);
    hide OutsideMove;
  }

  lemma StepKeepsBudget(c: Config, s: State, e: Event)
    requires Budget(c, s) && Next(c, s, e).Some?
    ensures Budget(c, Next(c, s, e).value)
  {
    hide WorkerMove, CoordMove, ControlMove, OutsideMove, Budget;
    if WorkerEnabled(c, s, e) {
      if !OwnMove(e) {
        StarterKeepsBudget(c, s, e);
      } else if e.w {
        SecondKeepsBudget(c, s, e);
      } else {
        FirstKeepsBudget(c, s, e);
      }
    } else if CoordEnabled(c, s, e) {
      if e.CoordReceive? || e.CoordMeet? {
        ReceiveKeepsBudget(c, s, e);
      } else {
        CoordKeepsBudget(c, s, e);
      }
    } else if ControlEnabled(c, s, e) {
      ControlKeepsBudget(c, s, e);
    } else {
      OutsideKeepsBudget(c, s, e);
    }
  }

  // A worker touches neither the coordinator's data nor what has been handed out.
  lemma WorkerFields(c: Config, s: State, e: Event)
    requires WorkerEnabled(c, s, e) && OwnMove(e)
    ensures var t := WorkerMove(c, s, e);
      && t.co == s.co && t.received == s.received && t.started == s.started && t.queue == s.queue
      && t.taken == s.taken && t.updating == s.updating && t.deallocated == s.deallocated
      && t.forwarding == s.forwarding
  {
  }

  // What leaves the worker's hand is in `labs`, closed, or was just created.
  lemma FirstBalance(c: Config, s: State, e: Event, l: Lab)
    requires WorkerEnabled(c, s, e) && OwnMove(e) && !e.w
    ensures var t := WorkerMove(c, s, e);
      && t.w1 == s.w1 && t.closed[l] >= s.closed[l] && multiset(t.created)[l] >= multiset(s.created)[l]
      && Held(t.w0, l) + multiset(t.labs)[l] + t.closed[l] + multiset(s.created)[l]
         == Held(s.w0, l) + multiset(s.labs)[l] + s.closed[l] + multiset(t.created)[l]
  {
  }

  lemma SecondBalance(c: Config, s: State, e: Event, l: Lab)
    requires WorkerEnabled(c, s, e) && OwnMove(e) && e.w
    ensures var t := WorkerMove(c, s, e);
      && t.w0 == s.w0 && t.closed[l] >= s.closed[l] && multiset(t.created)[l] >= multiset(s.created)[l]
      && Held(t.w1, l) + multiset(t.labs)[l] + t.closed[l] + multiset(s.created)[l]
         == Held(s.w1, l) + multiset(s.labs)[l] + s.closed[l] + multiset(t.created)[l]
  {
  }

  lemma FirstKeepsConserved(c: Config, s: State, e: Event, l: Lab)
    requires ConservedAt(s, l) && WorkerEnabled(c, s, e) && OwnMove(e) && !e.w
    ensures ConservedAt(WorkerMove(c, s, e), l)
  {
    WorkerFields(c, s, e);
    FirstBalance(c, s, e, l);
    hide WorkerMove, WorkerEnabled, Held;
  }

  lemma SecondKeepsConserved(c: Config, s: State, e: Event, l: Lab)
    requires ConservedAt(s, l) && WorkerEnabled(c, s, e) && OwnMove(e) && e.w
    ensures ConservedAt(WorkerMove(c, s, e), l)
  {
    WorkerFields(c, s, e);
    SecondBalance(c, s, e, l);
    hide WorkerMove, WorkerEnabled, Held;
  }

  lemma ReceiveKeepsConserved(c: Config, s: State, e: Event, l: Lab)
    requires ConservedAt(s, l) && CoordEnabled(c, s, e) && e.CoordReceive?
    ensures ConservedAt(CoordMove(c, s, e), l)
  {
    SplitHead(s.labs, l);
  }

  lemma MeetKeepsConserved(c: Config, s: State, e: Event, l: Lab)
    requires ConservedAt(s, l) && CoordEnabled(c, s, e) && e.CoordMeet?
    ensures ConservedAt(CoordMove(c, s, e), l)
  {
    var t := CoordMove(c, s, e);
    assert !Swept(s, l) && !Swept(t, l);
    assert t.labs == s.labs && t.closed == s.closed && t.created == s.created;
    assert multiset(t.received)[l] == multiset(s.received)[l] + Held(Pc(s, e.w), l);
    assert Held(t.w0, l) + Held(t.w1, l) + Held(Pc(s, e.w), l) == Held(s.w0, l) + Held(s.w1, l);
    hide CoordMove, CoordEnabled, Swept, Held;
  }

  lemma CoordKeepsConserved(c: Config, s: State, e: Event, l: Lab)
    requires ConservedAt(s, l) && CoordEnabled(c, s, e) && !e.CoordReceive? && !e.CoordMeet? && SweepsStarted(s)
    ensures ConservedAt(CoordMove(c, s, e), l)
  {
    match e
    case CoordDrain => SplitHead(s.labs, l);
    case CoordSignal(w) => if w {} else {}
    case _ =>
  }

  lemma StarterKeepsConserved(c: Config, s: State, e: Event, l: Lab)
    requires ConservedAt(s, l) && WorkerEnabled(c, s, e) && !OwnMove(e) && Shape(s)
    ensures ConservedAt(WorkerMove(c, s, e), l)
  {
  }

  lemma ControlKeepsConserved(c: Config, s: State, e: Event, l: Lab)
    requires ConservedAt(s, l) && ControlEnabled(c, s, e) && Shape(s)
    ensures ConservedAt(ControlMove(c, s, e), l)
  {
  }

  lemma OutsideKeepsConserved(c: Config, s: State, e: Event, l: Lab)
    requires ConservedAt(s, l) && OutsideEnabled(c, s, e)
    ensures ConservedAt(OutsideMove(c, s, e), l)
  {
    OutsideFrame(c, s, e);
    hide OutsideMove, OutsideEnabled;
  }

  lemma StepKeepsConserved(c: Config, s: State, e: Event, l: Lab)
    requires ConservedAt(s, l) && Next(c, s, e).Some? && Shape(s) && SweepsStarted(s)
    ensures ConservedAt(Next(c, s, e).value, l)
  {
    hide WorkerMove, CoordMove, ControlMove, OutsideMove, ConservedAt, Shape, SweepsStarted;
    if WorkerEnabled(c, s, e) {
      if !OwnMove(e) {
        StarterKeepsConserved(c, s, e, l);
      } else if e.w {
        SecondKeepsConserved(c, s, e, l);
      } else {
        FirstKeepsConserved(c, s, e, l);
      }
    } else if CoordEnabled(c, s, e) {
      if e.CoordReceive? {
        ReceiveKeepsConserved(c, s, e, l);
      } else if e.CoordMeet? {
        MeetKeepsConserved(c, s, e, l);
      } else {
        CoordKeepsConserved(c, s, e, l);
      }
    } else if ControlEnabled(c, s, e) {
      ControlKeepsConserved(c, s, e, l);
    } else {
      OutsideKeepsConserved(c, s, e, l);
    }
  }

  lemma FirstKeepsExclusive(c: Config, s: State, e: Event, l: Lab)
    requires ExclusiveAt(s, l) && WorkerEnabled(c, s, e) && OwnMove(e) && !e.w
    ensures ExclusiveAt(WorkerMove(c, s, e), l)
  {
    WorkerFields(c, s, e);
    FirstBalance(c, s, e, l);
    hide WorkerMove, WorkerEnabled, Held;
  }

  lemma SecondKeepsExclusive(c: Config, s: State, e: Event, l: Lab)
    requires ExclusiveAt(s, l) && WorkerEnabled(c, s, e) && OwnMove(e) && e.w
    ensures ExclusiveAt(WorkerMove(c, s, e), l)
  {
    WorkerFields(c, s, e);
    SecondBalance(c, s, e, l);
    hide WorkerMove, WorkerEnabled, Held;
  }

  lemma ReceiveKeepsExclusive(c: Config, s: State, e: Event, l: Lab)
    requires ExclusiveAt(s, l) && CoordEnabled(c, s, e) && (e.CoordReceive? || e.CoordMeet?)
    ensures ExclusiveAt(CoordMove(c, s, e), l)
  {
    if e.CoordReceive? {
      SplitHead(s.labs, l);
    } else if e.w {
    } else {
    }
  }

  lemma CoordKeepsExclusive(c: Config, s: State, e: Event, l: Lab)
    requires ExclusiveAt(s, l) && CoordEnabled(c, s, e) && !e.CoordReceive? && !e.CoordMeet?
    ensures ExclusiveAt(CoordMove(c, s, e), l)
  {
    match e
    case CoordDrain => SplitHead(s.labs, l);
    case CoordSignal(w) => if w {} else {}
    case _ =>
  }

  lemma TakeKeepsCirculating(c: Config, s: State, l: Lab)
    requires OutsideEnabled(c, s, Take)
    ensures Circulating(OutsideMove(c, s, Take), l) == Circulating(s, l)
  {
    var t := OutsideMove(c, s, Take);
    assert t == s.(queue := s.queue[1..], taken := s.taken + multiset{s.queue[0]});
    hide OutsideMove;
    SplitHead(s.queue, l);
  }

  lemma TakingKeepsCirculating(c: Config, s: State, e: Event, l: Lab)
    requires OutsideEnabled(c, s, e) && (e.TakeFromCoordinator? || e.TakeFromForwarder?)
    ensures Circulating(OutsideMove(c, s, e), l) == Circulating(s, l)
  {
  }

  lemma ReturningKeepsCirculating(c: Config, s: State, e: Event, l: Lab)
    requires OutsideEnabled(c, s, e) && (e.Return? || e.Deallocate? || e.HandOver?)
    ensures Circulating(OutsideMove(c, s, e), l) == Circulating(s, l)
  {
  }

  lemma ForwardingKeepsCirculating(c: Config, s: State, e: Event, l: Lab)
    requires OutsideEnabled(c, s, e) && (e.Forward? || e.ForwardEnqueue? || e.Close?)
    ensures Circulating(OutsideMove(c, s, e), l) == Circulating(s, l)
  {
    if e.Forward? { SplitHead(s.deallocated, l); }
  }

  lemma OutsideKeepsExclusive(c: Config, s: State, e: Event, l: Lab)
    requires ExclusiveAt(s, l) && OutsideEnabled(c, s, e)
    ensures ExclusiveAt(OutsideMove(c, s, e), l)
  {
    OutsideFrame(c, s, e);
    hide OutsideMove, Circulating;
    if e.Take? {
      TakeKeepsCirculating(c, s, l);
    } else if e.TakeFromCoordinator? || e.TakeFromForwarder? {
      TakingKeepsCirculating(c, s, e, l);
    } else if e.Return? || e.Deallocate? || e.HandOver? {
      ReturningKeepsCirculating(c, s, e, l);
    } else {
      ForwardingKeepsCirculating(c, s, e, l);
    }
  }

  lemma StarterKeepsExclusive(c: Config, s: State, e: Event, l: Lab)
    requires ExclusiveAt(s, l) && WorkerEnabled(c, s, e) && !OwnMove(e) && Shape(s)
    ensures ExclusiveAt(WorkerMove(c, s, e), l)
  {
  }

  lemma ControlKeepsExclusive(c: Config, s: State, e: Event, l: Lab)
    requires ExclusiveAt(s, l) && ControlEnabled(c, s, e)
    ensures ExclusiveAt(ControlMove(c, s, e), l)
  {
  }

  lemma StepKeepsExclusive(c: Config, s: State, e: Event, l: Lab)
    requires ExclusiveAt(s, l) && Next(c, s, e).Some? && Shape(s)
    ensures ExclusiveAt(Next(c, s, e).value, l)
  {
    hide WorkerMove, CoordMove, ControlMove, OutsideMove, ExclusiveAt, Shape;
    if WorkerEnabled(c, s, e) {
      if !OwnMove(e) {
        StarterKeepsExclusive(c, s, e, l);
      } else if e.w {
        SecondKeepsExclusive(c, s, e, l);
      } else {
        FirstKeepsExclusive(c, s, e, l);
      }
    } else if CoordEnabled(c, s, e) {
      if e.CoordReceive? || e.CoordMeet? {
        ReceiveKeepsExclusive(c, s, e, l);
      } else {
        CoordKeepsExclusive(c, s, e, l);
      }
    } else if ControlEnabled(c, s, e) {
      ControlKeepsExclusive(c, s, e, l);
    } else {
      OutsideKeepsExclusive(c, s, e, l);
    }
  }

  lemma RegisterKeepsRegistry(received: seq<Lab>, started: map<string, Lab>, lab: Lab)
    requires Registry(received, started)
    ensures Registry(received + [lab], started[lab.tag := lab])
  {
    var r, m := received + [lab], started[lab.tag := lab];
    assert m.Keys == started.Keys + {lab.tag};
    forall i | 0 <= i < |r| && m[r[i].tag] != r[i]
      ensures exists j :: i < j < |r| && r[j].tag == r[i].tag
    {
      if r[i].tag == lab.tag {
        assert r[|received|].tag == r[i].tag;
      } else {
        var j :| i < j < |received| && received[j].tag == received[i].tag;
        assert r[j].tag == r[i].tag;
      }
    }
  }

  ghost predicate History(s: State) {
    Registry(s.received, s.started) && Numbered(s) && SweepsStarted(s)
  }

  lemma WorkerKeepsHistory(c: Config, s: State, e: Event)
    requires History(s) && WorkerEnabled(c, s, e)
    ensures History(WorkerMove(c, s, e))
  {
    var t := WorkerMove(c, s, e);
    assert t.received == s.received && t.started == s.started;
  }

  lemma CoordKeepsHistory(c: Config, s: State, e: Event)
    requires History(s) && CoordEnabled(c, s, e)
    ensures History(CoordMove(c, s, e))
  {
    if e.CoordReceive? || e.CoordMeet? {
      RegisterKeepsRegistry(s.received, s.started, CoordMove(c, s, e).co.lab);
    }
  }

  lemma ControlKeepsHistory(c: Config, s: State, e: Event)
    requires History(s) && ControlEnabled(c, s, e)
    ensures History(ControlMove(c, s, e))
  {
    var t := ControlMove(c, s, e);
    assert t.received == s.received && t.started == s.started && t.created == s.created;
    assert SweepsStarted(t);
    hide Registry, Numbered, SweepsStarted, ControlMove;
  }

  lemma OutsideKeepsHistory(c: Config, s: State, e: Event)
    requires History(s) && OutsideEnabled(c, s, e)
    ensures History(OutsideMove(c, s, e))
  {
    OutsideFrame(c, s, e);
    hide OutsideMove, Registry;
  }

  lemma StepKeepsHistory(c: Config, s: State, e: Event)
    requires History(s) && Next(c, s, e).Some?
    ensures History(Next(c, s, e).value)
  {
    hide WorkerMove, CoordMove, ControlMove, OutsideMove, History;
    if WorkerEnabled(c, s, e) {
      WorkerKeepsHistory(c, s, e);
    } else if CoordEnabled(c, s, e) {
      CoordKeepsHistory(c, s, e);
    } else if ControlEnabled(c, s, e) {
      ControlKeepsHistory(c, s, e);
    } else {
      OutsideKeepsHistory(c, s, e);
    }
  }
}
