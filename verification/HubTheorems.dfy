/** What holds in every run of the hub. */
module HubTheorems {
  import opened Wrappers
  import opened Hub
  import opened HubInvariants

  ghost predicate Good(c: Config, s: State) {
    && Buffered(c, s) && Shape(s) && Budget(c, s) && History(s)
    && (forall l :: ConservedAt(s, l)) && (forall l :: ExclusiveAt(s, l))
  }

  lemma StepKeepsGood(c: Config, s: State, e: Event)
    requires Good(c, s) && Next(c, s, e).Some?
    ensures Good(c, Next(c, s, e).value)
  {
    StepKeepsBuffered(c, s, e);
    StepKeepsShape(c, s, e);
    StepKeepsBudget(c, s, e);
    StepKeepsHistory(c, s, e);
    forall l ensures ConservedAt(Next(c, s, e).value, l) && ExclusiveAt(Next(c, s, e).value, l) {
      StepKeepsConserved(c, s, e, l);
      StepKeepsExclusive(c, s, e, l);
    }
  }

  lemma NothingYet(l: Lab)
    ensures ConservedAt(Initial(), l) && ExclusiveAt(Initial(), l)
  {
  }

  lemma NobodyYet(c: Config)
    ensures Buffered(c, Initial()) && Shape(Initial()) && Budget(c, Initial()) && History(Initial())
  {
  }

  lemma InitiallyGood(c: Config)
    ensures Good(c, Initial())
  {
    hide ConservedAt, ExclusiveAt, Buffered, Shape, Budget, History;
    NobodyYet(c);
    forall l ensures ConservedAt(Initial(), l) && ExclusiveAt(Initial(), l) { NothingYet(l); }
  }

  lemma {:induction false} RunKeepsGood(c: Config, es: seq<Event>, s: State)
    requires Run(c, es, s)
    ensures Good(c, s)
  {
    hide Next, Good;
    InitiallyGood(c);
    if es != [] {
      var t := Exec(c, Initial(), es[..|es| - 1]).value;
      RunKeepsGood(c, es[..|es| - 1], t);
      StepKeepsGood(c, t, es[|es| - 1]);
    }
  }

  // ----- The buffer -----

  /** Labs being built, labs waiting in `labs` and the lab in the coordinator's hand are never more than two,
      so together with the queue they never exceed the buffer asked for (or two). */
  lemma BufferBound(c: Config, es: seq<Event>, s: State)
    requires Run(c, es, s)
    ensures B(Busy(s.w0)) + B(Busy(s.w1)) + |s.labs| + Hand(s) <= 2
    ensures B(Busy(s.w0)) + B(Busy(s.w1)) + |s.labs| + Hand(s) + |s.queue| <= if c.buffer < 2 then 2 else c.buffer
  {
    RunKeepsGood(c, es, s);
  }

  // ----- Capacity -----

  ghost predicate DistinctTags(labs: seq<Lab>) {
    forall i, j :: 0 <= i < j < |labs| ==> labs[i].tag != labs[j].tag
  }

  lemma {:induction false} DistinctTagsAllKept(received: seq<Lab>, started: map<string, Lab>)
    requires Registry(received, started) && DistinctTags(received)
    ensures |started| == |received|
    ensures forall l :: l in received ==> started[l.tag] == l
  {
    forall l | l in received ensures started[l.tag] == l {
      var i :| 0 <= i < |received| && received[i] == l;
      assert forall j :: i < j < |received| ==> received[j].tag != l.tag;
    }
    TagCount(received);
    assert started.Keys == Tags(received);
  }

  function Tags(labs: seq<Lab>): set<string> { set l | l in labs :: l.tag }

  lemma {:induction false} TagCount(labs: seq<Lab>)
    requires DistinctTags(labs)
    ensures |Tags(labs)| == |labs|
  {
    if labs != [] {
      var n := |labs| - 1;
      TagCount(labs[..n]);
      assert Tags(labs) == Tags(labs[..n]) + {labs[n].tag} by {
        assert labs == labs[..n] + [labs[n]];
      }
      assert labs[n].tag !in Tags(labs[..n]) by {
        forall l | l in labs[..n] ensures l.tag != labs[n].tag {
          var i :| 0 <= i < n && labs[..n][i] == l;
        }
      }
    }
  }

  /** For a capacity of two or more, the hub builds at most `cap` labs, plus one for every registered lab
      that lost its entry to a later lab with the same tag. */
  lemma CreatedBound(c: Config, es: seq<Event>, s: State)
    requires Run(c, es, s) && 2 <= c.cap
    ensures |s.created| <= c.cap + |s.received| - |s.started|
    ensures DistinctTags(s.received) ==> |s.created| <= c.cap
  {
    RunKeepsGood(c, es, s);
    if DistinctTags(s.received) { DistinctTagsAllKept(s.received, s.started); }
  }

  ghost predicate CapacityHolds(c: Config) {
    forall es, s :: Run(c, es, s) && DistinctTags(s.received) ==> |s.created| <= c.cap
  }

  lemma Extend(c: Config, s: State, es: seq<Event>, t: State, e: Event)
    requires Exec(c, s, es) == Some(t) && Enabled(c, t, e)
    ensures Exec(c, s, es + [e]) == Next(c, t, e)
  {
    assert (es + [e])[..|es|] == es;
  }

  lemma ExtendWorker(c: Config, s: State, es: seq<Event>, t: State, e: Event)
    requires Exec(c, s, es) == Some(t) && WorkerEnabled(c, t, e)
    ensures Exec(c, s, es + [e]) == Some(WorkerMove(c, t, e))
  {
    hide WorkerMove;
    Extend(c, s, es, t, e);
  }

  // NewHub hands out its two tokens before it knows the capacity.
  lemma BothReceived(c: Config) returns (es: seq<Event>, s: State)
    ensures Run(c, es, s)
    ensures s == Initial().(sent := 2, w0 := Received, w1 := Received, co := Selecting)
  {
    assert Exec(c, Initial(), []) == Some(Initial());
    hide Next, Exec;
    es, s := [], Initial();
    ExtendWorker(c, Initial(), es, s, StartFirst);
    es, s := es + [StartFirst], WorkerMove(c, s, StartFirst);
    ExtendWorker(c, Initial(), es, s, StartSecond(true));
    es, s := es + [StartSecond(true)], WorkerMove(c, s, StartSecond(true));
  }

  // A worker with a token builds a lab.
  lemma Build(c: Config, s: State, es: seq<Event>, t: State, w: bool, tag: string) returns (fs: seq<Event>, u: State)
    requires Exec(c, s, es) == Some(t) && Pc(t, w).Received?
    ensures Exec(c, s, fs) == Some(u)
    ensures u == SetPc(t, w, Offering(Lab(|t.created|, tag))).(
                   wg := t.wg + 1, created := t.created + [Lab(|t.created|, tag)])
  {
    hide Next, Exec;
    ExtendWorker(c, s, es, t, WorkerAdd(w));
    fs, u := es + [WorkerAdd(w)], WorkerMove(c, t, WorkerAdd(w));
    ExtendWorker(c, s, fs, u, WorkerMake(w, tag));
    fs, u := fs + [WorkerMake(w, tag)], WorkerMove(c, u, WorkerMake(w, tag));
  }

  /** The capacity is respected exactly when it is at least two: the two equality tests miss smaller ones. */
  lemma CapacityHoldsIff(c: Config)
    ensures CapacityHolds(c) <==> 2 <= c.cap
  {
    if 2 <= c.cap {
      forall es, s | Run(c, es, s) && DistinctTags(s.received) ensures |s.created| <= c.cap {
        CreatedBound(c, es, s);
      }
    } else {
      var es, s := BothReceived(c);
      es, s := Build(c, Initial(), es, s, false, "a");
      es, s := Build(c, Initial(), es, s, true, "b");
      assert Run(c, es, s) && DistinctTags(s.received);
    }
  }

  // ----- The token channel -----

  /** When the coordinator stands at `ready <-`, the channel is open and some worker holds no lab that is still
      to be queued, has no token and has not exited; it comes back for the token by its own moves alone. */
  lemma TokenSendNeverBlocks(c: Config, es: seq<Event>, s: State)
    requires Run(c, es, s) && s.co.Signalling?
    ensures !s.readyClosed
    ensures exists w :: Pc(s, w).Idle? || Pc(s, w).Handed? || Pc(s, w).Refused? || Pc(s, w).Closing?
    ensures exists more, t, w :: OwnMoves(more, w) && Exec(c, s, more) == Some(t) && CoordEnabled(c, t, CoordSignal(w))
  {
    hide Next;
    assert Buffered(c, s) && Shape(s) && Budget(c, s) by { RunKeepsGood(c, es, s); }
    var w := !(s.w0.Idle? || s.w0.Handed? || s.w0.Refused? || s.w0.Closing?);
    assert Pc(s, w).Idle? || Pc(s, w).Handed? || Pc(s, w).Refused? || Pc(s, w).Closing?;
    assert Exec(c, s, []) == Some(s);
    var more, t := ComeBack(c, s, [], s, w);
  }

  predicate OwnMoves(es: seq<Event>, w: bool) { forall e :: e in es ==> e == WorkerDone(w) || e == WorkerClose(w) }

  // The worker finishes with the lab it has passed on or refused.
  lemma {:induction false} ComeBack(c: Config, s: State, es: seq<Event>, t: State, w: bool)
    returns (more: seq<Event>, u: State)
    requires Exec(c, s, es) == Some(t) && OwnMoves(es, w) && t.co.Signalling? && !t.readyClosed
    requires Pc(t, w).Idle? || Pc(t, w).Closing? || (t.wg != 0 && (Pc(t, w).Handed? || Pc(t, w).Refused?))
    ensures OwnMoves(more, w) && Exec(c, s, more) == Some(u) && CoordEnabled(c, u, CoordSignal(w))
    decreases if Pc(t, w).Idle? then 0 else if Pc(t, w).Refused? then 2 else 1
  {
    hide Next, Exec;
    if Pc(t, w).Idle? {
      more, u := es, t;
    } else {
      var e := if Pc(t, w).Closing? then WorkerClose(w) else WorkerDone(w);
      ExtendWorker(c, s, es, t, e);
      more, u := ComeBack(c, s, es + [e], WorkerMove(c, t, e), w);
    }
  }

  // ----- The race between the token and the wait group -----

  // Once Wait has returned with every token counted, no worker will ever build a lab again.
  ghost predicate Quiet(s: State) {
    && s.labsClosed && (s.co.Draining? || s.co.Sweeping? || s.co.Finished?)
    && (s.w0.Idle? || s.w0.Closing? || s.w0.Exited?)
    && (s.w1.Idle? || s.w1.Closing? || s.w1.Exited?)
  }

  lemma WaitMakesQuiet(c: Config, s: State)
    requires Shape(s) && ControlEnabled(c, s, CoordWaitDone) && !Uncounted(s)
    ensures var t := ControlMove(c, s, CoordWaitDone); Quiet(t) && t.sent == 2
  {
  }

  lemma WorkerKeepsQuiet(c: Config, s: State, e: Event)
    requires Quiet(s) && s.sent == 2 && WorkerEnabled(c, s, e)
    ensures Quiet(WorkerMove(c, s, e)) && WorkerMove(c, s, e).sent == 2
  {
    if e.w {} else {}
  }

  lemma CoordKeepsQuiet(c: Config, s: State, e: Event)
    requires Quiet(s) && s.sent == 2 && CoordEnabled(c, s, e)
    ensures Quiet(CoordMove(c, s, e)) && CoordMove(c, s, e).sent == 2
  {
  }

  lemma StepKeepsQuiet(c: Config, s: State, e: Event)
    requires Quiet(s) && s.sent == 2 && Next(c, s, e).Some?
    ensures Quiet(Next(c, s, e).value) && Next(c, s, e).value.sent == 2
  {
    hide WorkerMove, WorkerEnabled, CoordMove, CoordEnabled, OutsideMove, OutsideEnabled;
    if WorkerEnabled(c, s, e) {
      WorkerKeepsQuiet(c, s, e);
    } else if CoordEnabled(c, s, e) {
      CoordKeepsQuiet(c, s, e);
    } else if !ControlEnabled(c, s, e) {
      OutsideFrame(c, s, e);
    }
  }

  lemma {:induction false} ExecKeepsQuiet(c: Config, s: State, es: seq<Event>, t: State)
    requires Quiet(s) && s.sent == 2 && Exec(c, s, es) == Some(t)
    ensures Quiet(t) && t.sent == 2
  {
    hide Next, Quiet;
    if es != [] {
      var u := Exec(c, s, es[..|es| - 1]).value;
      ExecKeepsQuiet(c, s, es[..|es| - 1], u);
      StepKeepsQuiet(c, u, es[|es| - 1]);
    }
  }

  /** Letting `wg.Wait()` return can lead to a send on the closed `labs` exactly when, at that moment, a worker
      has taken a token and has not yet run `wg.Add(1)`. */
  lemma WaitLeadsToPanicIff(c: Config, es: seq<Event>, s: State, after: State)
    requires Run(c, es, s) && ControlEnabled(c, s, CoordWaitDone) && after == ControlMove(c, s, CoordWaitDone)
    ensures (exists more, t :: Exec(c, after, more) == Some(t) && PanicEnabled(t)) <==> Uncounted(s)
  {
    assert Shape(s) by { RunKeepsGood(c, es, s); }
    assert Exec(c, after, []) == Some(after);
    hide Next, Exec;
    if Uncounted(s) {
      var more, t := Build(c, after, [], after, !s.w0.Received?, "a");
      assert PanicEnabled(t);
    } else {
      WaitMakesQuiet(c, s);
      forall more, t | Exec(c, after, more) == Some(t) ensures !PanicEnabled(t) {
        ExecKeepsQuiet(c, after, more, t);
      }
    }
  }

  /** Every hub can get into that situation: Close right after the two first tokens. */
  lemma RaceIsReachable(c: Config) returns (es: seq<Event>, s: State)
    ensures Run(c, es, s) && ControlEnabled(c, s, CoordWaitDone) && Uncounted(s)
  {
    hide Exec;
    es, s := BothReceived(c);
    Extend(c, Initial(), es, s, Close);
    es, s := es + [Close], s.(stop := true);
    Extend(c, Initial(), es, s, CoordStop);
    es, s := es + [CoordStop], s.(co := Waiting);
  }

  /** Wait never returns while a received token is uncounted. */
  ghost predicate Prompt(c: Config, es: seq<Event>) {
    es == [] ||
    var fs, t := es[..|es| - 1], Exec(c, Initial(), es[..|es| - 1]);
    Prompt(c, fs) && (es[|es| - 1].CoordWaitDone? && t.Some? ==> !Uncounted(t.value))
  }

  lemma {:induction false} PromptRunsTurnQuiet(c: Config, es: seq<Event>, s: State)
    requires Run(c, es, s) && Prompt(c, es)
    ensures s.labsClosed ==> Quiet(s) && s.sent == 2
  {
    hide Next, Quiet, Shape;
    assert !Initial().labsClosed;
    if es != [] {
      var fs, e := es[..|es| - 1], es[|es| - 1];
      var t := Exec(c, Initial(), fs).value;
      PromptRunsTurnQuiet(c, fs, t);
      RunKeepsGood(c, fs, t);
      PromptStepTurnsQuiet(c, t, e);
    }
  }

  lemma OnlyWaitDoneClosesLabs(c: Config, s: State, e: Event)
    requires Next(c, s, e).Some?
    ensures Next(c, s, e).value.labsClosed == (s.labsClosed || (ControlEnabled(c, s, e) && e.CoordWaitDone?))
  {
    hide ControlPc;
    if WorkerEnabled(c, s, e) {
      hide CoordMove, ControlMove, OutsideMove, CoordEnabled, OutsideEnabled;
    } else if CoordEnabled(c, s, e) {
      hide ControlMove, OutsideMove, OutsideEnabled;
    }
  }

  lemma PromptStepTurnsQuiet(c: Config, s: State, e: Event)
    requires Shape(s) && Next(c, s, e).Some?
    requires s.labsClosed ==> Quiet(s) && s.sent == 2
    requires e.CoordWaitDone? ==> !Uncounted(s)
    ensures var t := Next(c, s, e).value; t.labsClosed ==> Quiet(t) && t.sent == 2
  {
    hide WorkerMove, CoordMove, OutsideMove, Shape, Quiet;
    OnlyWaitDoneClosesLabs(c, s, e);
    if s.labsClosed {
      StepKeepsQuiet(c, s, e);
    } else if e.CoordWaitDone? {
      WaitMakesQuiet(c, s);
    }
  }

  /** In such runs no goroutine ever sends on a closed channel, neither on `labs` nor on `ready`. */
  lemma PromptRunsNeverPanic(c: Config, es: seq<Event>, s: State)
    requires Run(c, es, s) && Prompt(c, es)
    ensures !PanicEnabled(s)
  {
    PromptRunsTurnQuiet(c, es, s);
    RunKeepsGood(c, es, s);
  }

  // ----- Shutdown -----

  // `l` was registered and then lost its entry in `startedLabs` to another lab with the same tag.
  ghost predicate Overwritten(s: State, l: Lab) { l in s.received && l !in s.started.Values }

  lemma CreatedOnce(s: State, l: Lab)
    requires Numbered(s)
    ensures multiset(s.created)[l] <= 1
    ensures multiset(s.created)[l] == 1 <==> l in s.created
  {
    if l in s.created {
      var i :| 0 <= i < |s.created| && s.created[i] == l;
      assert s.created == s.created[..i] + [l] + s.created[i + 1..];
      assert l !in s.created[..i] && l !in s.created[i + 1..];
    }
  }

  /** When coordinator and workers have returned, every lab ever created has been closed exactly once, whoever
      held it when Close came, save the overwritten ones, which are never closed; and nothing else was closed. */
  lemma ShutdownClosesEverything(c: Config, es: seq<Event>, s: State, l: Lab)
    requires Run(c, es, s) && Complete(s)
    ensures s.closed[l] == if l in s.created && !Overwritten(s, l) then 1 else 0
  {
    RunKeepsGood(c, es, s);
    CreatedOnce(s, l);
    assert ConservedAt(s, l) && s.labs == [];
    assert Swept(s, l) <==> l in s.started.Values;
    assert l in s.started.Values ==> l in s.received;
  }

  /** So nothing is lost exactly when all registered labs carry different tags. */
  lemma ShutdownLosesNothingIff(c: Config, es: seq<Event>, s: State)
    requires Run(c, es, s) && Complete(s)
    ensures s.closed == multiset(s.created) <==> DistinctTags(s.received)
  {
    RunKeepsGood(c, es, s);
    forall l ensures s.closed[l] == if l in s.created && !Overwritten(s, l) then 1 else 0 {
      ShutdownClosesEverything(c, es, s, l);
    }
    forall l ensures multiset(s.created)[l] == if l in s.created then 1 else 0 {
      CreatedOnce(s, l);
    }
    if DistinctTags(s.received) {
      DistinctTagsAllKept(s.received, s.started);
      assert forall l :: !Overwritten(s, l);
    } else {
      var i, j :| 0 <= i < j < |s.received| && s.received[i].tag == s.received[j].tag;
      DuplicateIsOverwritten(s, i, j);
    }
  }

  lemma DuplicateIsOverwritten(s: State, i: nat, j: nat)
    requires History(s) && (forall l :: ConservedAt(s, l)) && Complete(s)
    requires i < j < |s.received| && s.received[i].tag == s.received[j].tag
    ensures exists l :: l in s.created && Overwritten(s, l)
  {
    var a, b := s.received[i], s.received[j];
    CreatedOnce(s, a);
    CreatedOnce(s, b);
    assert ConservedAt(s, a) && ConservedAt(s, b);
    assert Swept(s, a) ==> s.started[a.tag] == a;
    assert Swept(s, b) ==> s.started[b.tag] == b;
    if a == b {
      assert multiset(s.received)[a] >= 2 by { TwiceInside(s.received, i, j); }
    }
    assert a in s.received && b in s.received;
  }

  lemma TwiceInside(labs: seq<Lab>, i: nat, j: nat)
    requires i < j < |labs| && labs[i] == labs[j]
    ensures multiset(labs)[labs[i]] >= 2
  {
    assert labs == labs[..j] + [labs[j]] + labs[j + 1..];
    assert labs[i] in labs[..j];
  }

  lemma ExtendCoord(c: Config, s: State, es: seq<Event>, t: State, e: Event)
    requires Exec(c, s, es) == Some(t) && CoordEnabled(c, t, e)
    ensures Exec(c, s, es + [e]) == Some(CoordMove(c, t, e))
  {
    hide CoordMove;
    Extend(c, s, es, t, e);
  }

  lemma ExtendControl(c: Config, s: State, es: seq<Event>, t: State, e: Event)
    requires Exec(c, s, es) == Some(t) && ControlEnabled(c, t, e)
    ensures Exec(c, s, es + [e]) == Some(ControlMove(c, t, e))
  {
    hide ControlMove;
    Extend(c, s, es, t, e);
  }

  // A worker's lab reaches the coordinator, through the buffer if there is one.
  lemma Reach(c: Config, es: seq<Event>, s: State, w: bool) returns (fs: seq<Event>, t: State)
    requires Run(c, es, s) && s.co.Selecting? && s.labs == [] && !s.labsClosed && Pc(s, w).Offering?
    ensures es <= fs && Run(c, fs, t) && t == Register(SetPc(s, w, Handed), Pc(s, w).lab)
  {
    hide Exec, Next;
    var l := Pc(s, w).lab;
    if c.ChannelSize() == 0 {
      ExtendCoord(c, Initial(), es, s, CoordMeet(w));
      fs, t := es + [CoordMeet(w)], CoordMove(c, s, CoordMeet(w));
    } else {
      ExtendWorker(c, Initial(), es, s, WorkerSend(w));
      fs, t := es + [WorkerSend(w)], WorkerMove(c, s, WorkerSend(w));
      assert [] + [l] == [l] && [l][1..] == [];
      assert t == SetPc(s, w, Handed).(labs := [l]);
      ExtendCoord(c, Initial(), fs, t, CoordReceive);
      fs, t := fs + [CoordReceive], CoordMove(c, t, CoordReceive);
    }
  }

  // After Close, the coordinator registers such a lab and turns back to its select.
  lemma PassOn(c: Config, es: seq<Event>, s: State, w: bool) returns (fs: seq<Event>, t: State)
    requires Run(c, es, s) && s.co.Selecting? && s.stop && s.labs == [] && !s.labsClosed && s.wg > 0
    requires Pc(s, w).Offering?
    ensures Run(c, fs, t)
    ensures var l := Pc(s, w).lab;
      t == SetPc(s, w, Idle).(started := s.started[l.tag := l], received := s.received + [l], wg := s.wg - 1)
  {
    fs, t := Reach(c, es, s, w);
    hide Exec, Next, CoordMove, OutsideMove;
    ExtendWorker(c, Initial(), fs, t, WorkerDone(w));
    fs, t := fs + [WorkerDone(w)], WorkerMove(c, t, WorkerDone(w));
    ExtendControl(c, Initial(), fs, t, CoordSkip);
    fs, t := fs + [CoordSkip], ControlMove(c, t, CoordSkip);
  }

  // Shutting down with one registered lab and two idle workers: first the coordinator, up to its last loop.
  lemma StartSweep(c: Config, es: seq<Event>, s: State) returns (fs: seq<Event>, t: State)
    requires Run(c, es, s) && s.co.Selecting? && s.stop && s.labs == [] && s.wg == 0
    ensures Run(c, fs, t) && t == s.(co := Sweeping(s.started.Values), labsClosed := true)
  {
    hide Exec, Next, CoordMove, WorkerMove, OutsideMove;
    ExtendControl(c, Initial(), es, s, CoordStop);
    fs, t := es + [CoordStop], ControlMove(c, s, CoordStop);
    ExtendControl(c, Initial(), fs, t, CoordWaitDone);
    fs, t := fs + [CoordWaitDone], ControlMove(c, t, CoordWaitDone);
    ExtendControl(c, Initial(), fs, t, CoordDrained);
    fs, t := fs + [CoordDrained], ControlMove(c, t, CoordDrained);
  }

  lemma FinishSweep(c: Config, es: seq<Event>, s: State, l: Lab) returns (fs: seq<Event>, t: State)
    requires Run(c, es, s) && s.co == Sweeping({l})
    ensures Run(c, fs, t) && t == s.(co := Finished, readyClosed := true, closed := s.closed + multiset{l})
  {
    hide Exec, Next, WorkerMove, OutsideMove;
    ExtendCoord(c, Initial(), es, s, CoordSweep(l));
    fs, t := es + [CoordSweep(l)], CoordMove(c, s, CoordSweep(l));
    assert {l} - {l} == {};
    ExtendControl(c, Initial(), fs, t, CoordSwept);
    fs, t := fs + [CoordSwept], ControlMove(c, t, CoordSwept);
  }

  lemma BothExit(c: Config, es: seq<Event>, s: State) returns (fs: seq<Event>, t: State)
    requires Run(c, es, s) && s.readyClosed && s.w0.Idle? && s.w1.Idle?
    ensures Run(c, fs, t) && t == s.(w0 := Exited, w1 := Exited)
  {
    hide Exec, Next, CoordMove, ControlMove, OutsideMove;
    ExtendWorker(c, Initial(), es, s, WorkerExit(false));
    fs, t := es + [WorkerExit(false)], WorkerMove(c, s, WorkerExit(false));
    ExtendWorker(c, Initial(), fs, t, WorkerExit(true));
    fs, t := fs + [WorkerExit(true)], WorkerMove(c, t, WorkerExit(true));
  }

  // Both workers hold a lab with the same tag when Close comes.
  lemma SameTagTwice(c: Config) returns (es: seq<Event>, s: State)
    ensures Run(c, es, s)
    ensures s == Initial().(sent := 2, w0 := Offering(Lab(0, "a")), w1 := Offering(Lab(1, "a")), co := Selecting,
                            wg := 2, stop := true, created := [Lab(0, "a"), Lab(1, "a")])
  {
    hide Exec;
    es, s := BothReceived(c);
    es, s := Build(c, Initial(), es, s, false, "a");
    es, s := Build(c, Initial(), es, s, true, "a");
    assert s.created == [Lab(0, "a"), Lab(1, "a")];
    Extend(c, Initial(), es, s, Close);
    es, s := es + [Close], s.(stop := true);
  }

  /** Every hub has a complete run that loses a lab: both workers draw the same tag. */
  lemma LabCanBeLost(c: Config) returns (es: seq<Event>, s: State)
    ensures Run(c, es, s) && Complete(s) && !DistinctTags(s.received)
    ensures exists l :: l in s.created && s.closed[l] == 0
  {
    hide Exec, Next;
    es, s := SameTagTwice(c);
    es, s := PassOn(c, es, s, false);
    es, s := PassOn(c, es, s, true);
    assert s.started == map["a" := Lab(1, "a")];
    OneValue("a", Lab(1, "a"));
    es, s := StartSweep(c, es, s);
    es, s := FinishSweep(c, es, s, Lab(1, "a"));
    es, s := BothExit(c, es, s);
    assert s.received == [Lab(0, "a"), Lab(1, "a")];
    assert s.received[0].tag == s.received[1].tag;
    assert Lab(0, "a") in s.created && s.closed[Lab(0, "a")] == 0;
  }

  lemma OneValue(tag: string, l: Lab)
    ensures map[tag := l].Values == {l}
  {
    assert map[tag := l][tag] == l;
  }

  // ----- Handing labs out -----

  lemma CirculatesOnce(c: Config, es: seq<Event>, s: State, l: Lab)
    requires Run(c, es, s)
    ensures Circulating(s, l) <= 1
    ensures l !in s.created ==> Circulating(s, l) == 0
  {
    RunKeepsGood(c, es, s);
    assert ExclusiveAt(s, l);
    CreatedOnce(s, l);
  }

  lemma OnlyOutsideMovesTaken(c: Config, s: State, e: Event)
    requires WorkerEnabled(c, s, e) || CoordEnabled(c, s, e) || ControlEnabled(c, s, e)
    ensures Next(c, s, e).value.taken == s.taken
  {
    hide ControlPc;
    if WorkerEnabled(c, s, e) {
      hide CoordMove, CoordEnabled, ControlMove, ControlEnabled;
    } else if CoordEnabled(c, s, e) {
      hide ControlMove, ControlEnabled;
    }
  }

  lemma StepKeepsTaken(c: Config, s: State, e: Event, l: Lab)
    requires Next(c, s, e).Some? && e != Return(l)
    ensures s.taken[l] <= Next(c, s, e).value.taken[l]
  {
    hide WorkerMove, WorkerEnabled, CoordMove, CoordEnabled, ControlMove, ControlEnabled;
    if WorkerEnabled(c, s, e) || CoordEnabled(c, s, e) || ControlEnabled(c, s, e) {
      OnlyOutsideMovesTaken(c, s, e);
    }
  }

  lemma {:induction false} ExecKeepsTaken(c: Config, s: State, es: seq<Event>, t: State, l: Lab)
    requires Exec(c, s, es) == Some(t) && Return(l) !in es
    ensures s.taken[l] <= t.taken[l]
  {
    hide Next;
    if es != [] {
      var u := Exec(c, s, es[..|es| - 1]).value;
      ExecKeepsTaken(c, s, es[..|es| - 1], u, l);
      StepKeepsTaken(c, u, es[|es| - 1], l);
    }
  }

  lemma {:induction false} ExecConcat(c: Config, s: State, es: seq<Event>, fs: seq<Event>, t: State)
    requires Exec(c, s, es).Some? && Exec(c, Exec(c, s, es).value, fs) == Some(t)
    ensures Exec(c, s, es + fs) == Some(t)
  {
    hide Next;
    if fs == [] {
      assert es + fs == es;
    } else {
      var n := |fs| - 1;
      ExecConcat(c, s, es, fs[..n], Exec(c, Exec(c, s, es).value, fs[..n]).value);
      assert (es + fs)[..|es + fs| - 1] == es + fs[..n];
    }
  }

  /** A lab that a consumer has taken is handed out again only after that consumer has returned it to Update. */
  lemma TakenAgainNeedsReturn(c: Config, es: seq<Event>, s: State, more: seq<Event>, t: State, e: Event, l: Lab)
    requires Run(c, es, s) && l in s.taken
    requires Exec(c, s, more) == Some(t) && Return(l) !in more && e != Return(l) && Next(c, t, e).Some?
    ensures t.taken[l] == 1 && Next(c, t, e).value.taken[l] == 1
  {
    hide Next;
    ExecConcat(c, Initial(), es, more, t);
    ExecKeepsTaken(c, s, more, t, l);
    CirculatesOnce(c, es + more, t, l);
    var u := Next(c, t, e).value;
    StepKeepsTaken(c, t, e, l);
    assert (es + more + [e])[..|es + more|] == es + more;
    CirculatesOnce(c, es + more + [e], u, l);
  }

  /** Update's send never blocks: the channel has room for every lab that can be on its way back. */
  lemma UpdateNeverBlocks(c: Config, es: seq<Event>, s: State, l: Lab)
    requires Run(c, es, s) && 2 <= c.cap && DistinctTags(s.received) && l in s.updating
    ensures Enabled(c, s, Deallocate(l))
  {
    CreatedBound(c, es, s);
    var back := multiset(s.deallocated) + s.updating;
    forall m ensures back[m] <= multiset(s.created)[m] {
      RunKeepsGood(c, es, s);
      assert ExclusiveAt(s, m);
    }
    assert back <= multiset(s.created);
    assert multiset(s.created) == back + (multiset(s.created) - back);
    assert |s.deallocated| + |s.updating| == |back| <= |s.created|;
    assert |s.updating| >= 1 by { assert s.updating == multiset{l} + (s.updating - multiset{l}); }
  }
}
