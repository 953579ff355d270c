/** Labs reach the consumers: the queue is served oldest first, what teams give back comes round again, and before
    Close no lab is lost. */
module HubDelivery {
  import opened Wrappers
  import opened Hub
  import opened HubInvariants
  import opened HubTheorems
  import opened HubProgress

  // ----- Receiving from the queue -----

  /** `n` receives from Queue() in a row. */
  function Receives(n: nat): (es: seq<Event>)
    ensures |es| == n && forall i :: 0 <= i < n ==> es[i] == Take
  {
    seq(n, _ => Take)
  }

  lemma ReceiveOne(c: Config, s: State)
    ensures Next(c, s, Take) == if s.queue == [] then None
                                else Some(s.(queue := s.queue[1..], taken := s.taken + multiset{s.queue[0]}))
  {
  }

  /** A lab at place i of the queue is taken by i + 1 receives in a row, the oldest first, and there are no more
      receives than labs. */
  lemma {:induction false} QueueIsServed(c: Config, s: State, n: nat)
    ensures Exec(c, s, Receives(n)) ==
            if n > |s.queue| then None
            else Some(s.(queue := s.queue[n..], taken := s.taken + multiset(s.queue[..n])))
  {
    hide Next;
    if n == 0 {
      assert s.queue[0..] == s.queue && s.taken + multiset(s.queue[..0]) == s.taken;
    } else {
      assert Receives(n)[..n - 1] == Receives(n - 1);
      QueueIsServed(c, s, n - 1);
      if n - 1 <= |s.queue| {
        var t := Exec(c, s, Receives(n - 1)).value;
        ReceiveOne(c, t);
        if n <= |s.queue| {
          assert s.queue[n - 1..][1..] == s.queue[n..] && s.queue[n - 1..][0] == s.queue[n - 1];
          assert s.queue[..n] == s.queue[..n - 1] + [s.queue[n - 1]];
          assert multiset(s.queue[..n]) == multiset(s.queue[..n - 1]) + multiset{s.queue[n - 1]};
          assert t.taken + multiset{t.queue[0]} == s.taken + multiset(s.queue[..n]);
        }
      }
    }
  }

  /** Every hand-out of a buffered hub is of the oldest lab in the queue; an unbuffered one hands over what the
      coordinator or the forwarder holds. */
  lemma HandsOutOldest(c: Config, s: State, e: Event, t: State, l: Lab)
    requires Next(c, s, e) == Some(t) && t.taken[l] > s.taken[l]
    ensures (s.queue != [] && s.queue[0] == l && t.queue == s.queue[1..])
            || (c.ChannelSize() == 0 && t.queue == s.queue
                && ((s.co == Enqueueing(l) && t.co == Deciding) || (s.forwarding == Some(l) && t.forwarding == None)))
  {
    hide WorkerMove, WorkerEnabled, CoordMove, CoordEnabled, ControlMove, ControlEnabled;
    if WorkerEnabled(c, s, e) || CoordEnabled(c, s, e) || ControlEnabled(c, s, e) {
      OnlyOutsideMovesTaken(c, s, e);
    }
  }

  /** The coordinator receives the oldest lab in the buffer; without a buffer, the one that a worker offers. */
  lemma ReceivesOldest(c: Config, s: State, e: Event, t: State)
    requires Next(c, s, e) == Some(t) && t.received != s.received
    ensures (s.labs != [] && t.received == s.received + [s.labs[0]] && t.labs == s.labs[1..])
            || (c.ChannelSize() == 0 && t.labs == s.labs
                && exists w :: Pc(s, w).Offering? && t.received == s.received + [Pc(s, w).lab] && Pc(t, w) == Handed)
  {
    OnlyCoordReceives(c, s, e);
    if e.CoordMeet? { assert Pc(s, e.w).Offering? && Pc(t, e.w) == Handed; }
  }

  lemma OnlyCoordReceives(c: Config, s: State, e: Event)
    requires Next(c, s, e).Some? && Next(c, s, e).value.received != s.received
    ensures CoordEnabled(c, s, e) && Next(c, s, e) == Some(CoordMove(c, s, e)) && (e.CoordReceive? || e.CoordMeet?)
  {
    hide ControlPc;
    if WorkerEnabled(c, s, e) {
      hide CoordMove, ControlMove, OutsideMove, CoordEnabled, OutsideEnabled;
    } else if CoordEnabled(c, s, e) {
      hide ControlMove, OutsideMove, OutsideEnabled;
    } else if !ControlEnabled(c, s, e) {
      OutsideFrame(c, s, e);
      hide OutsideMove, CoordMove, ControlMove;
    }
  }

  /** The forwarder takes the oldest of the labs given back; without a buffer, one that is in Update. */
  lemma ForwardsOldest(c: Config, s: State, e: Event, t: State, l: Lab)
    requires Next(c, s, e) == Some(t) && t.forwarding == Some(l) != s.forwarding
    ensures (s.deallocated != [] && s.deallocated[0] == l && t.deallocated == s.deallocated[1..])
            || (c.cap == 0 && l in s.updating && t.deallocated == s.deallocated)
    ensures s.forwarding == None
  {
    hide WorkerMove, CoordMove, ControlMove;
    if WorkerEnabled(c, s, e) {
      KeepsForwarding(c, s, e);
    } else if CoordEnabled(c, s, e) {
      CoordFields(c, s, e);
    } else if ControlEnabled(c, s, e) {
      KeepsForwarding(c, s, e);
    }
  }

  lemma KeepsForwarding(c: Config, s: State, e: Event)
    ensures WorkerEnabled(c, s, e) ==> WorkerMove(c, s, e).forwarding == s.forwarding
    ensures ControlEnabled(c, s, e) ==> ControlMove(c, s, e).forwarding == s.forwarding
  {
    hide ControlPc;
  }

  /** What is left of a channel stays in front and in its order. */
  predicate Fifo(before: seq<Lab>, after: seq<Lab>) { exists k :: 0 <= k <= |before| && before[k..] <= after }

  // One step of a channel.
  predicate FifoStep(before: seq<Lab>, after: seq<Lab>) {
    before <= after || (before != [] && after == before[1..])
  }

  lemma FifoExtends(a: seq<Lab>, b: seq<Lab>, c: seq<Lab>)
    requires Fifo(a, b) && FifoStep(b, c)
    ensures Fifo(a, c)
  {
    var k :| 0 <= k <= |a| && a[k..] <= b;
    if b <= c {
      assert a[k..] <= c;
    } else if k < |a| {
      assert a[k + 1..] == a[k..][1..] <= b[1..];
    } else {
      assert a[k..] == [] <= c;
    }
  }

  lemma StepIsFifo(c: Config, s: State, e: Event, t: State)
    requires Next(c, s, e) == Some(t)
    ensures FifoStep(s.labs, t.labs) && FifoStep(s.queue, t.queue) && FifoStep(s.deallocated, t.deallocated)
  {
    hide WorkerMove, CoordMove, ControlMove, OutsideMove;
    if WorkerEnabled(c, s, e) {
      WorkerIsFifo(c, s, e);
    } else if CoordEnabled(c, s, e) {
      CoordIsFifo(c, s, e);
    } else if ControlEnabled(c, s, e) {
      ControlIsFifo(c, s, e);
    } else {
      OutsideIsFifo(c, s, e);
    }
  }

  lemma WorkerIsFifo(c: Config, s: State, e: Event)
    requires WorkerEnabled(c, s, e)
    ensures var t := WorkerMove(c, s, e);
      FifoStep(s.labs, t.labs) && t.queue == s.queue && t.deallocated == s.deallocated
  {
  }

  lemma CoordIsFifo(c: Config, s: State, e: Event)
    requires CoordEnabled(c, s, e)
    ensures var t := CoordMove(c, s, e);
      FifoStep(s.labs, t.labs) && FifoStep(s.queue, t.queue) && t.deallocated == s.deallocated
  {
    CoordFields(c, s, e);
    if e.CoordMeet? || e.CoordSignal? { if e.w {} else {} }
  }

  lemma ControlIsFifo(c: Config, s: State, e: Event)
    requires ControlEnabled(c, s, e)
    ensures var t := ControlMove(c, s, e);
      t.labs == s.labs && t.queue == s.queue && t.deallocated == s.deallocated
  {
    hide ControlPc;
  }

  lemma OutsideIsFifo(c: Config, s: State, e: Event)
    requires OutsideEnabled(c, s, e)
    ensures var t := OutsideMove(c, s, e);
      t.labs == s.labs && FifoStep(s.queue, t.queue) && FifoStep(s.deallocated, t.deallocated)
  {
  }

  /** Over every run, each channel hands on its labs in the order in which they came. */
  lemma {:induction false} ChannelsAreFifo(c: Config, s: State, es: seq<Event>, t: State)
    requires Exec(c, s, es) == Some(t)
    ensures Fifo(s.labs, t.labs) && Fifo(s.queue, t.queue) && Fifo(s.deallocated, t.deallocated)
  {
    hide Next, Fifo, FifoStep;
    if es == [] {
      FifoStart(s.labs);
      FifoStart(s.queue);
      FifoStart(s.deallocated);
    } else {
      var u := Exec(c, s, es[..|es| - 1]).value;
      ChannelsAreFifo(c, s, es[..|es| - 1], u);
      StepIsFifo(c, u, es[|es| - 1], t);
      FifoExtends(s.labs, u.labs, t.labs);
      FifoExtends(s.queue, u.queue, t.queue);
      FifoExtends(s.deallocated, u.deallocated, t.deallocated);
    }
  }

  lemma FifoStart(labs: seq<Lab>)
    ensures Fifo(labs, labs)
  {
    assert labs[0..] == labs;
  }

  // ----- What consumers give back -----

  /** Moves of consumers, Update and the forwarder that bring a lab closer to a consumer. */
  predicate Delivers(e: Event) {
    e.Take? || e.TakeFromForwarder? || e.Deallocate? || e.HandOver? || e.Forward? || e.ForwardEnqueue?
  }

  predicate AllDeliver(es: seq<Event>) { forall i :: 0 <= i < |es| ==> Delivers(es[i]) }

  function Forwarded(s: State): multiset<Lab> {
    match s.forwarding case Some(l) => multiset{l} case None => multiset{}
  }

  /** The labs on their way to a consumer. */
  function OnTheWay(s: State): multiset<Lab> {
    multiset(s.queue) + Forwarded(s) + multiset(s.deallocated) + s.updating
  }

  /** All of them handed out, and nothing else changed. */
  function Delivered(s: State): State {
    s.(queue := [], forwarding := None, deallocated := [], updating := multiset{}, taken := s.taken + OnTheWay(s))
  }

  function Distance(s: State): nat {
    |s.queue| + 2 * (if s.forwarding.Some? then 1 else 0) + 3 * |s.deallocated| + 4 * |s.updating|
  }

  lemma HeadOut(labs: seq<Lab>)
    requires labs != []
    ensures multiset(labs) == multiset{labs[0]} + multiset(labs[1..])
  {
    assert labs == [labs[0]] + labs[1..];
  }

  lemma TakeDelivers(c: Config, s: State)
    requires s.queue != []
    ensures OutsideEnabled(c, s, Take)
    ensures var t := OutsideMove(c, s, Take); Distance(t) < Distance(s) && Delivered(t) == Delivered(s)
  {
    HeadOut(s.queue);
    var t := OutsideMove(c, s, Take);
    assert t == s.(queue := s.queue[1..], taken := s.taken + multiset{s.queue[0]});
    hide OutsideMove;
    assert t.taken + OnTheWay(t) == s.taken + OnTheWay(s);
  }

  lemma HandedToConsumer(c: Config, s: State)
    requires s.forwarding.Some? && c.ChannelSize() == 0
    ensures OutsideEnabled(c, s, TakeFromForwarder)
    ensures OutsideMove(c, s, TakeFromForwarder)
            == s.(taken := s.taken + multiset{s.forwarding.value}, forwarding := None)
  {
  }

  lemma QueuedAgain(c: Config, s: State)
    requires s.queue == [] && s.forwarding.Some? && c.ChannelSize() > 0
    ensures OutsideEnabled(c, s, ForwardEnqueue)
    ensures OutsideMove(c, s, ForwardEnqueue) == s.(queue := [s.forwarding.value], forwarding := None)
  {
    assert s.queue + [s.forwarding.value] == [s.forwarding.value];
  }

  lemma ForwarderDelivers(c: Config, s: State)
    requires s.queue == [] && s.forwarding.Some?
    ensures var e := if c.ChannelSize() == 0 then TakeFromForwarder else ForwardEnqueue;
      && OutsideEnabled(c, s, e)
      && Distance(OutsideMove(c, s, e)) < Distance(s) && Delivered(OutsideMove(c, s, e)) == Delivered(s)
  {
    hide OutsideMove, OutsideEnabled;
    if c.ChannelSize() == 0 { HandedToConsumer(c, s); } else { QueuedAgain(c, s); }
    var e := if c.ChannelSize() == 0 then TakeFromForwarder else ForwardEnqueue;
    var t := OutsideMove(c, s, e);
    SameTotal(s.taken, t.taken, multiset(s.queue) + Forwarded(s), multiset(t.queue) + Forwarded(t),
              multiset(s.deallocated) + s.updating);
    assert s.taken + OnTheWay(s) == t.taken + OnTheWay(t);
  }

  lemma SameTotal(a: multiset<Lab>, b: multiset<Lab>, x: multiset<Lab>, y: multiset<Lab>, rest: multiset<Lab>)
    requires a + x == b + y
    ensures a + (x + rest) == b + (y + rest)
  {
    assert a + (x + rest) == a + x + rest && b + (y + rest) == b + y + rest;
  }

  lemma ForwardDelivers(c: Config, s: State)
    requires s.forwarding.None? && s.deallocated != []
    ensures OutsideEnabled(c, s, Forward)
    ensures var t := OutsideMove(c, s, Forward); Distance(t) < Distance(s) && Delivered(t) == Delivered(s)
  {
    HeadOut(s.deallocated);
    var t := OutsideMove(c, s, Forward);
    assert t == s.(deallocated := s.deallocated[1..], forwarding := Some(s.deallocated[0]));
    hide OutsideMove;
    assert OnTheWay(t) == OnTheWay(s);
  }

  lemma GivenBack(c: Config, s: State, l: Lab)
    requires l in s.updating && s.deallocated == [] && c.cap > 0
    ensures OutsideEnabled(c, s, Deallocate(l))
    ensures OutsideMove(c, s, Deallocate(l)) == s.(updating := s.updating - multiset{l}, deallocated := [l])
  {
    assert s.deallocated + [l] == [l];
  }

  lemma GivenToForwarder(c: Config, s: State, l: Lab)
    requires l in s.updating && s.forwarding.None? && c.cap == 0
    ensures OutsideEnabled(c, s, HandOver(l))
    ensures OutsideMove(c, s, HandOver(l)) == s.(updating := s.updating - multiset{l}, forwarding := Some(l))
  {
  }

  lemma UpdateDelivers(c: Config, s: State, l: Lab)
    requires s.forwarding.None? && s.deallocated == [] && l in s.updating
    ensures var e := if c.cap == 0 then HandOver(l) else Deallocate(l);
      && OutsideEnabled(c, s, e)
      && Distance(OutsideMove(c, s, e)) < Distance(s) && Delivered(OutsideMove(c, s, e)) == Delivered(s)
  {
    hide OutsideMove, OutsideEnabled;
    if c.cap == 0 { GivenToForwarder(c, s, l); } else { GivenBack(c, s, l); }
    var t := OutsideMove(c, s, if c.cap == 0 then HandOver(l) else Deallocate(l));
    assert s.updating == multiset{l} + t.updating;
    assert OnTheWay(t) == OnTheWay(s);
  }

  // The next such move.
  lemma NextDelivery(c: Config, s: State) returns (e: Event)
    requires Distance(s) > 0
    ensures Delivers(e) && OutsideEnabled(c, s, e)
    ensures Distance(OutsideMove(c, s, e)) < Distance(s) && Delivered(OutsideMove(c, s, e)) == Delivered(s)
  {
    hide OutsideMove, OutsideEnabled, Delivered, OnTheWay;
    if s.queue != [] {
      e := Take;
      TakeDelivers(c, s);
    } else if s.forwarding.Some? {
      e := if c.ChannelSize() == 0 then TakeFromForwarder else ForwardEnqueue;
      ForwarderDelivers(c, s);
    } else if s.deallocated != [] {
      e := Forward;
      ForwardDelivers(c, s);
    } else {
      var l :| l in s.updating;
      e := if c.cap == 0 then HandOver(l) else Deallocate(l);
      UpdateDelivers(c, s, l);
    }
  }

  lemma ExtendOutside(c: Config, s: State, es: seq<Event>, t: State, e: Event)
    requires Exec(c, s, es) == Some(t) && OutsideEnabled(c, t, e)
    ensures Exec(c, s, es + [e]) == Some(OutsideMove(c, t, e))
  {
    hide OutsideMove;
    Extend(c, s, es, t, e);
  }

  lemma {:induction false} DeliverAll(c: Config, s: State, es: seq<Event>, t: State) returns (more: seq<Event>)
    requires Exec(c, s, es) == Some(t)
    ensures AllDeliver(more) && Exec(c, s, es + more) == Some(Delivered(t))
    decreases Distance(t)
  {
    hide Exec, OutsideMove, OutsideEnabled, OnTheWay;
    if Distance(t) == 0 {
      more := [];
      assert es + more == es;
      NothingOnTheWay(t);
    } else {
      var e := NextDelivery(c, t);
      ExtendOutside(c, s, es, t, e);
      var rest := DeliverAll(c, s, es + [e], OutsideMove(c, t, e));
      more := [e] + rest;
      assert es + more == es + [e] + rest;
    }
  }

  lemma NothingOnTheWay(s: State)
    requires Distance(s) == 0
    ensures Delivered(s) == s
  {
    assert OnTheWay(s) == multiset{};
  }

  /** From any state, moves of Update, the forwarder and consumers alone can hand out every lab that is on its way:
      those in the queue, in the forwarder's hand, in `deallocated` and in Update. */
  lemma EverythingComesBack(c: Config, s: State) returns (more: seq<Event>, t: State)
    ensures AllDeliver(more) && Exec(c, s, more) == Some(t)
    ensures t.taken == s.taken + multiset(s.queue) + Forwarded(s) + multiset(s.deallocated) + s.updating
    ensures t == s.(queue := [], forwarding := None, deallocated := [], updating := multiset{}, taken := t.taken)
  {
    more := DeliverAll(c, s, [], s);
    assert [] + more == more;
    t := Delivered(s);
  }

  // ----- Before Close no lab is lost -----

  /** Before Close, every lab that the coordinator has received is in the coordinator's hand, in the queue, with a
      consumer, in Update, in `deallocated` or in the forwarder's hand, as often as it was received. */
  ghost predicate KeptAt(s: State, l: Lab) { !s.stop ==> Circulating(s, l) == multiset(s.received)[l] }

  lemma WorkerKeepsKept(c: Config, s: State, e: Event, l: Lab)
    requires KeptAt(s, l) && WorkerEnabled(c, s, e) && Shape(s)
    ensures KeptAt(WorkerMove(c, s, e), l)
  {
    var t := WorkerMove(c, s, e);
    if OwnMove(e) {
      WorkerFields(c, s, e);
      assert t.stop == s.stop;
      hide WorkerMove, WorkerEnabled, Shape;
    } else {
      assert t.co == if e.StartSecond? then Selecting else s.co;
      assert s.co.NotStarted?;
    }
  }

  // Only registering and queueing concern the labs that are handed out.
  lemma CoordFields(c: Config, s: State, e: Event)
    requires CoordEnabled(c, s, e)
    ensures var t := CoordMove(c, s, e);
      && t.stop == s.stop && t.forwarding == s.forwarding && t.taken == s.taken && t.updating == s.updating
      && t.deallocated == s.deallocated
  {
    if e.CoordMeet? || e.CoordSignal? { if e.w {} else {} }
  }

  lemma RegisterFields(c: Config, s: State, e: Event)
    requires CoordEnabled(c, s, e) && (e.CoordReceive? || e.CoordMeet?)
    ensures var t := CoordMove(c, s, e);
      t.queue == s.queue && s.co == Selecting && t.co.Enqueueing? && t.received == s.received + [t.co.lab]
  {
    if e.CoordMeet? { if e.w {} else {} }
  }

  lemma OtherFields(c: Config, s: State, e: Event)
    requires CoordEnabled(c, s, e) && !e.CoordReceive? && !e.CoordMeet?
    ensures var t := CoordMove(c, s, e);
      && t.received == s.received && !t.co.Enqueueing?
      && t.queue == if s.co.Enqueueing? then s.queue + [s.co.lab] else s.queue
  {
    if e.CoordSignal? { if e.w {} else {} }
  }

  lemma CoordKeepsKept(c: Config, s: State, e: Event, l: Lab)
    requires KeptAt(s, l) && CoordEnabled(c, s, e)
    ensures KeptAt(CoordMove(c, s, e), l)
  {
    hide CoordMove, CoordEnabled;
    CoordFields(c, s, e);
    if e.CoordReceive? || e.CoordMeet? {
      RegisterFields(c, s, e);
    } else {
      OtherFields(c, s, e);
    }
  }

  lemma ControlKeepsKept(c: Config, s: State, e: Event, l: Lab)
    requires KeptAt(s, l) && ControlEnabled(c, s, e)
    ensures KeptAt(ControlMove(c, s, e), l)
  {
    assert s.stop || !s.co.Enqueueing?;
  }

  lemma OutsideKeepsKept(c: Config, s: State, e: Event, l: Lab)
    requires KeptAt(s, l) && OutsideEnabled(c, s, e)
    ensures KeptAt(OutsideMove(c, s, e), l)
  {
    OutsideFrame(c, s, e);
    assert s.stop ==> OutsideMove(c, s, e).stop;
    hide OutsideMove, Circulating;
    if e.Take? {
      TakeKeepsCirculating(c, s, l);
    } else if e.TakeFromCoordinator? || e.TakeFromForwarder? {
      TakingKeepsCirculating(c, s, e, l);
    } else if e.Return? || e.Deallocate? || e.HandOver? {
      ReturningKeepsCirculating(c, s, e, l);
    } else {
      ForwardingKeepsCirculating(c, s, e, l);
    }
  }

  lemma StepKeepsKept(c: Config, s: State, e: Event, l: Lab)
    requires KeptAt(s, l) && Shape(s) && Next(c, s, e).Some?
    ensures KeptAt(Next(c, s, e).value, l)
  {
    hide WorkerMove, CoordMove, ControlMove, OutsideMove, KeptAt, Shape;
    if WorkerEnabled(c, s, e) {
      WorkerKeepsKept(c, s, e, l);
    } else if CoordEnabled(c, s, e) {
      CoordKeepsKept(c, s, e, l);
    } else if ControlEnabled(c, s, e) {
      ControlKeepsKept(c, s, e, l);
    } else {
      OutsideKeepsKept(c, s, e, l);
    }
  }

  lemma {:induction false} RunKeepsKept(c: Config, es: seq<Event>, s: State, l: Lab)
    requires Run(c, es, s)
    ensures KeptAt(s, l)
  {
    hide Next;
    if es != [] {
      var t := Exec(c, Initial(), es[..|es| - 1]).value;
      RunKeepsKept(c, es[..|es| - 1], t, l);
      assert Shape(t) by { RunKeepsGood(c, es[..|es| - 1], t); }
      hide KeptAt, Shape;
      StepKeepsKept(c, t, es[|es| - 1], l);
    }
  }

  /** Before Close, every lab ever built is in exactly one place: with a worker, in `labs`, or, once received, in one of
      the places from which it is handed out or in which a team has it. */
  lemma NothingLostBeforeClose(c: Config, es: seq<Event>, s: State, l: Lab)
    requires Run(c, es, s) && !s.stop
    ensures multiset(s.created)[l]
            == Held(s.w0, l) + Held(s.w1, l) + multiset(s.labs)[l]
               + (if s.co == Enqueueing(l) then 1 else 0) + multiset(s.queue)[l] + s.taken[l] + s.updating[l]
               + multiset(s.deallocated)[l] + (if s.forwarding == Some(l) then 1 else 0)
    ensures multiset(s.created)[l] == if l in s.created then 1 else 0
  {
    RunKeepsKept(c, es, s, l);
    RunKeepsGood(c, es, s);
    NothingClosedInRun(c, es, s);
    CreatedOnce(s, l);
    assert ConservedAt(s, l) && Shape(s);
  }

  // ----- Every lab can be handed out -----

  lemma {:induction false} ExecSuffix(c: Config, es: seq<Event>, s: State, more: seq<Event>, t: State)
    requires Run(c, es, s) && Run(c, es + more, t)
    ensures Exec(c, s, more) == Some(t)
  {
    hide Next;
    if more == [] {
      assert es + more == es;
    } else {
      var n := |more| - 1;
      assert (es + more)[..|es + more| - 1] == es + more[..n];
      ExecSuffix(c, es, s, more[..n], Exec(c, Initial(), es + more[..n]).value);
    }
  }

  // What the moves below leave alone: labs that are not yet with the coordinator, and those that are with consumers.
  ghost predicate Untouched(s: State, t: State) {
    && t.sent == s.sent && t.stop == s.stop && t.created == s.created && s.taken <= t.taken
    && (s.w0.Offering? ==> t.w0 == s.w0) && (s.w1.Offering? ==> t.w1 == s.w1)
  }

  lemma Drain(c: Config, es: seq<Event>, s: State) returns (fs: seq<Event>, t: State)
    requires Run(c, es, s)
    ensures es <= fs && Run(c, fs, t) && Untouched(s, t) && t.labs == s.labs && t.co == s.co && t.queue == []
    ensures OnTheWay(s) <= t.taken
  {
    var more := DeliverAll(c, Initial(), es, s);
    fs, t := es + more, Delivered(s);
    hide OnTheWay, Run;
  }

  // The coordinator passes on the lab in its hand, and a consumer takes it.
  lemma PassToConsumer(c: Config, es: seq<Event>, s: State) returns (fs: seq<Event>, t: State)
    requires Run(c, es, s) && s.co.Enqueueing?
    ensures es <= fs && Run(c, fs, t) && Untouched(s, t) && t.labs == s.labs && t.co.Deciding? && s.co.lab in t.taken
  {
    var l := s.co.lab;
    fs, t := Drain(c, es, s);
    hide Exec;
    if c.ChannelSize() == 0 {
      var u := FromCoordinator(c, t);
      ExtendOutside(c, Initial(), fs, t, TakeFromCoordinator);
      fs, t := fs + [TakeFromCoordinator], u;
    } else {
      var u := ThroughQueue(c, t);
      ExtendCoord(c, Initial(), fs, t, CoordEnqueue);
      ExtendOutside(c, Initial(), fs + [CoordEnqueue], CoordMove(c, t, CoordEnqueue), Take);
      fs, t := fs + [CoordEnqueue] + [Take], u;
    }
  }

  lemma FromCoordinator(c: Config, s: State) returns (t: State)
    requires s.co.Enqueueing? && c.ChannelSize() == 0
    ensures OutsideEnabled(c, s, TakeFromCoordinator) && t == OutsideMove(c, s, TakeFromCoordinator)
    ensures t == s.(co := Deciding, taken := s.taken + multiset{s.co.lab})
  {
    t := OutsideMove(c, s, TakeFromCoordinator);
  }

  lemma ThroughQueue(c: Config, s: State) returns (t: State)
    requires s.co.Enqueueing? && s.queue == [] && c.ChannelSize() > 0
    ensures CoordEnabled(c, s, CoordEnqueue)
    ensures var u := CoordMove(c, s, CoordEnqueue); OutsideEnabled(c, u, Take) && t == OutsideMove(c, u, Take)
    ensures t == s.(co := Deciding, taken := s.taken + multiset{s.co.lab})
  {
    var u := CoordMove(c, s, CoordEnqueue);
    assert s.queue + [s.co.lab] == [s.co.lab] && [s.co.lab][1..] == [];
    assert u == s.(co := Deciding, queue := [s.co.lab]);
    t := OutsideMove(c, u, Take);
  }

  // From the decision back to the select, if need be over a token for a worker that has none.
  lemma DecideAndSignal(c: Config, es: seq<Event>, s: State) returns (fs: seq<Event>, t: State)
    requires Run(c, es, s) && s.co.Deciding? && !s.stop
    ensures es <= fs && Run(c, fs, t) && Untouched(s, t) && t.labs == s.labs && t.co.Selecting?
  {
    hide Exec;
    ExtendControl(c, Initial(), es, s, CoordDecide);
    fs, t := es + [CoordDecide], ControlMove(c, s, CoordDecide);
    assert t == s.(co := t.co, readyClosed := t.readyClosed) && (t.co == Selecting || t.co == Signalling);
    if t.co == Signalling {
      hide ControlMove;
      fs, t := Signal(c, fs, t);
    }
  }

  lemma Signal(c: Config, es: seq<Event>, s: State) returns (fs: seq<Event>, t: State)
    requires Run(c, es, s) && s.co.Signalling? && !s.stop
    ensures es <= fs && Run(c, fs, t) && Untouched(s, t) && t.labs == s.labs && t.co.Selecting?
  {
    var w := WaitingWorker(c, es, s);
    hide Exec, WorkerMove, CoordMove;
    fs, t := es, s;
    if Pc(s, w).Handed? {
      DoneMeans(c, s, w);
      ExtendWorker(c, Initial(), fs, t, WorkerDone(w));
      fs, t := fs + [WorkerDone(w)], SetPc(s, w, Idle).(wg := s.wg - 1);
    }
    SignalMeans(c, t, w);
    ExtendCoord(c, Initial(), fs, t, CoordSignal(w));
    fs, t := fs + [CoordSignal(w)], SetPc(t, w, Received).(co := Selecting);
  }

  lemma DoneMeans(c: Config, s: State, w: bool)
    requires Pc(s, w).Handed? && s.wg != 0
    ensures WorkerEnabled(c, s, WorkerDone(w))
    ensures WorkerMove(c, s, WorkerDone(w)) == SetPc(s, w, Idle).(wg := s.wg - 1)
  {
  }

  lemma SignalMeans(c: Config, s: State, w: bool)
    requires s.co.Signalling? && !s.readyClosed && Pc(s, w).Idle?
    ensures CoordEnabled(c, s, CoordSignal(w))
    ensures CoordMove(c, s, CoordSignal(w)) == SetPc(s, w, Received).(co := Selecting)
  {
  }

  lemma WaitingWorker(c: Config, es: seq<Event>, s: State) returns (w: bool)
    requires Run(c, es, s) && s.co.Signalling? && !s.stop
    ensures !s.readyClosed && (Pc(s, w).Idle? || (Pc(s, w).Handed? && s.wg != 0))
  {
    TokenSendNeverBlocks(c, es, s);
    assert Shape(s) by { RunKeepsGood(c, es, s); }
    w :| Pc(s, w).Idle? || Pc(s, w).Handed? || Pc(s, w).Refused? || Pc(s, w).Closing?;
  }

  // Before Close the coordinator comes back to its select, and the lab in its hand to a consumer.
  lemma BackToSelect(c: Config, es: seq<Event>, s: State) returns (fs: seq<Event>, t: State)
    requires Run(c, es, s) && s.sent == 2 && !s.stop
    ensures es <= fs && Run(c, fs, t) && Untouched(s, t) && t.labs == s.labs && t.co.Selecting?
    ensures s.co.Enqueueing? ==> s.co.lab in t.taken
  {
    assert Shape(s) by { RunKeepsGood(c, es, s); }
    fs, t := es, s;
    hide Run;
    if t.co.Enqueueing? { fs, t := PassToConsumer(c, fs, t); }
    if t.co.Deciding? { fs, t := DecideAndSignal(c, fs, t); }
    if t.co.Signalling? { fs, t := Signal(c, fs, t); }
  }

  // The coordinator registers the lab that came first out of `labs`.
  lemma RegisterFirst(c: Config, es: seq<Event>, s: State) returns (fs: seq<Event>, t: State)
    requires Run(c, es, s) && s.co.Selecting? && s.labs != []
    ensures es <= fs && Run(c, fs, t) && t == Register(s.(labs := s.labs[1..]), s.labs[0])
  {
    hide Exec;
    ExtendCoord(c, Initial(), es, s, CoordReceive);
    fs, t := es + [CoordReceive], CoordMove(c, s, CoordReceive);
  }

  // One by one the labs in the buffer go to consumers.
  lemma {:induction false} EmptyBuffer(c: Config, es: seq<Event>, s: State) returns (fs: seq<Event>, t: State)
    requires Run(c, es, s) && s.sent == 2 && !s.stop && s.co.Selecting?
    ensures es <= fs && Run(c, fs, t) && Untouched(s, t) && t.labs == [] && t.co.Selecting?
    ensures forall l :: l in s.labs ==> l in t.taken
    decreases |s.labs|
  {
    fs, t := es, s;
    hide Run;
    if s.labs != [] {
      fs, t := RegisterFirst(c, fs, t);
      fs, t := BackToSelect(c, fs, t);
      var u := t;
      fs, t := EmptyBuffer(c, fs, t);
      forall l | l in s.labs ensures l in t.taken { assert l == s.labs[0] || l in s.labs[1..]; }
    }
  }

  // A lab that a worker offers is registered and goes to a consumer.
  lemma OfferTaken(c: Config, es: seq<Event>, s: State, w: bool) returns (fs: seq<Event>, t: State)
    requires Run(c, es, s) && s.sent == 2 && !s.stop && Pc(s, w).Offering?
    ensures es <= fs && Run(c, fs, t) && Pc(s, w).lab in t.taken
  {
    fs, t := BackToSelect(c, es, s);
    fs, t := EmptyBuffer(c, fs, t);
    assert Shape(t) by { RunKeepsGood(c, fs, t); }
    hide Run;
    fs, t := Reach(c, fs, t, w);
    fs, t := BackToSelect(c, fs, t);
  }

  /** Once NewHub has returned and before Close, every lab ever built can still reach a consumer, if no consumer has it
      already. */
  lemma EveryLabCanBeTaken(c: Config, es: seq<Event>, s: State, l: Lab) returns (more: seq<Event>, t: State)
    requires Run(c, es, s) && s.sent == 2 && !s.stop && l in s.created
    ensures Exec(c, s, more) == Some(t) && l in t.taken
  {
    NothingLostBeforeClose(c, es, s, l);
    assert Shape(s) by { RunKeepsGood(c, es, s); }
    var fs;
    hide Exec;
    if Held(s.w0, l) > 0 {
      fs, t := OfferTaken(c, es, s, false);
    } else if Held(s.w1, l) > 0 {
      fs, t := OfferTaken(c, es, s, true);
    } else {
      fs, t := Drain(c, es, s);
      assert OnTheWay(s)[l] <= t.taken[l];
      if l !in t.taken {
        fs, t := BackToSelect(c, fs, t);
        if l !in t.taken { fs, t := EmptyBuffer(c, fs, t); }
      }
    }
    more := fs[|es|..];
    assert fs == es + more;
    ExecSuffix(c, es, s, more, t);
  }

  // ----- The channels -----

  /** No channel holds more than it was made for. */
  ghost predicate Fit(c: Config, s: State) {
    |s.labs| <= c.ChannelSize() && |s.queue| <= c.ChannelSize() && |s.deallocated| <= c.cap
  }

  lemma WorkerKeepsFit(c: Config, s: State, e: Event)
    requires Fit(c, s) && WorkerEnabled(c, s, e)
    ensures Fit(c, WorkerMove(c, s, e))
  {
    WorkerIsFifo(c, s, e);
  }

  lemma CoordKeepsFit(c: Config, s: State, e: Event)
    requires Fit(c, s) && CoordEnabled(c, s, e)
    ensures Fit(c, CoordMove(c, s, e))
  {
    CoordFields(c, s, e);
  }

  lemma OutsideKeepsFit(c: Config, s: State, e: Event)
    requires Fit(c, s) && OutsideEnabled(c, s, e)
    ensures Fit(c, OutsideMove(c, s, e))
  {
  }

  lemma StepKeepsFit(c: Config, s: State, e: Event)
    requires Fit(c, s) && Next(c, s, e).Some?
    ensures Fit(c, Next(c, s, e).value)
  {
    hide WorkerMove, CoordMove, ControlMove, OutsideMove, Fit;
    if WorkerEnabled(c, s, e) {
      WorkerKeepsFit(c, s, e);
    } else if CoordEnabled(c, s, e) {
      CoordKeepsFit(c, s, e);
    } else if ControlEnabled(c, s, e) {
      ControlIsFifo(c, s, e);
      SameChannels(c, s, ControlMove(c, s, e));
    } else {
      OutsideKeepsFit(c, s, e);
    }
  }

  lemma SameChannels(c: Config, s: State, t: State)
    requires Fit(c, s) && t.labs == s.labs && t.queue == s.queue && t.deallocated == s.deallocated
    ensures Fit(c, t)
  {
  }

  /** In every run the buffers of `labs`, the queue and `deallocated` keep to their sizes. */
  lemma {:induction false} RunKeepsFit(c: Config, es: seq<Event>, s: State)
    requires Run(c, es, s)
    ensures Fit(c, s)
  {
    hide Next;
    if es != [] {
      var t := Exec(c, Initial(), es[..|es| - 1]).value;
      RunKeepsFit(c, es[..|es| - 1], t);
      StepKeepsFit(c, t, es[|es| - 1]);
    }
  }
}
