/** The lab hub of lab/hub.go as a state machine.

    Two workers build labs, one coordinator registers them and hands them to the queue, one forwarder puts
    returned labs back into the queue, and outside consumers take labs, return them and close the hub.  A
    state holds the program counter of every goroutine and the contents of every channel; an event names the
    goroutine that moves and the choice it makes; `Next` says what the move does, or `None` when the goroutine
    is blocked.  An unbuffered channel is a joint move of sender and receiver. */
module Hub {
  import opened Wrappers

  /** The number of labs ever created before this one identifies a lab; its tag is whatever the creator drew. */
  datatype Lab = Lab(id: nat, tag: string)

  datatype Config = Config(buffer: int, cap: nat)
  {
    /** The size of both `labs` and `queue`. */
    function ChannelSize(): nat { if buffer < 2 then 0 else buffer - 2 }
  }

  datatype Worker =
    | Unborn
    | Idle                 // at `range ready`
    | Received             // holds a token, has not run wg.Add(1)
    | Making               // wg.Add(1) done, NewLab and Start under way
    | Offering(lab: Lab)   // at the select between `labs <-` and `<-stop`
    | Handed               // lab sent, wg.Done() not yet run
    | Refused(lab: Lab)    // stop chosen, wg.Done() not yet run
    | Closing(lab: Lab)    // about to close the refused lab
    | Exited

  datatype Coordinator =
    | NotStarted
    | Selecting                  // at the outer select
    | Enqueueing(lab: Lab)       // at the select between `queue <-` and `<-stop`
    | Deciding                   // about to compare the number of labs with the capacity
    | Signalling                 // at `ready <-`
    | Waiting                    // at wg.Wait()
    | Draining                   // closing what is left in `labs`
    | Sweeping(left: set<Lab>)   // closing the registered labs, `left` still to do
    | Finished

  datatype State = State(
    sent: nat,                   // tokens NewHub has sent itself
    w0: Worker, w1: Worker, co: Coordinator,
    labs: seq<Lab>, labsClosed: bool, readyClosed: bool, stop: bool, wg: nat,
    queue: seq<Lab>,
    taken: multiset<Lab>,        // in the hands of a team
    updating: multiset<Lab>,     // inside Update, before its channel send
    deallocated: seq<Lab>, forwarding: Option<Lab>,
    started: map<string, Lab>,   // startedLabs
    created: seq<Lab>,           // history: every lab built
    received: seq<Lab>,          // history: every lab the coordinator took out of `labs`
    closed: multiset<Lab>)       // history: one entry per call of Lab.Close

  datatype Event =
    | StartFirst | StartSecond(w: bool)
    | WorkerAdd(w: bool) | WorkerMake(w: bool, tag: string) | WorkerSend(w: bool) | WorkerDone(w: bool)
    | WorkerRefuse(w: bool) | WorkerClose(w: bool) | WorkerExit(w: bool)
    | CoordReceive | CoordMeet(w: bool) | CoordEnqueue | CoordSkip | CoordDecide | CoordSignal(w: bool)
    | CoordStop | CoordWaitDone | CoordDrain | CoordDrained | CoordSweep(lab: Lab) | CoordSwept
    | Close | Take | TakeFromCoordinator | TakeFromForwarder | Return(lab: Lab) | Deallocate(lab: Lab)
    | HandOver(lab: Lab)
    | Forward | ForwardEnqueue

  /** Moves of the hub's own goroutines; the rest belongs to consumers, Update and the forwarder. */
  predicate HubEvent(e: Event) {
    !e.Close? && !e.Take? && !e.TakeFromCoordinator? && !e.TakeFromForwarder? && !e.Return? && !e.Deallocate?
    && !e.HandOver? && !e.Forward? && !e.ForwardEnqueue?
  }

  function Initial(): State {
    State(0, Idle, Unborn, NotStarted, [], false, false, false, 0, [], multiset{}, multiset{}, [], None,
          map[], [], [], multiset{})
  }

  function Pc(s: State, w: bool): Worker { if w then s.w1 else s.w0 }

  function SetPc(s: State, w: bool, p: Worker): State { if w then s.(w1 := p) else s.(w0 := p) }

  /** `startedLabs[l.Tag()] = l`, then the inner select. */
  function Register(s: State, lab: Lab): State {
    s.(started := s.started[lab.tag := lab], received := s.received + [lab], co := Enqueueing(lab))
  }

  /** Which moves of a worker are possible. */
  predicate WorkerEnabled(c: Config, s: State, e: Event) {
    match e
    case StartFirst => s.sent == 0 && !s.readyClosed && s.w0.Idle?
    case StartSecond(w) => s.sent == 1 && !s.readyClosed && Pc(s, w).Idle?
    case WorkerAdd(w) => Pc(s, w).Received?
    case WorkerMake(w, _) => Pc(s, w).Making?
    case WorkerSend(w) => Pc(s, w).Offering? && !s.labsClosed && |s.labs| < c.ChannelSize()
    case WorkerDone(w) => s.wg != 0 && (Pc(s, w).Handed? || Pc(s, w).Refused?)
    case WorkerRefuse(w) => Pc(s, w).Offering? && s.stop
    case WorkerClose(w) => Pc(s, w).Closing?
    case WorkerExit(w) => Pc(s, w).Idle? && s.readyClosed
    case _ => false
  }

  /** Where a worker's own move takes it. */
  function WorkerPc(s: State, e: Event): Worker {
    match e
    case WorkerAdd(_) => Making
    case WorkerMake(_, tag) => Offering(Lab(|s.created|, tag))
    case WorkerSend(_) => Handed
    case WorkerDone(w) => if Pc(s, w).Refused? then Closing(Pc(s, w).lab) else Idle
    case WorkerRefuse(w) => if Pc(s, w).Offering? then Refused(Pc(s, w).lab) else Pc(s, w)
    case WorkerClose(_) => Idle
    case _ => Exited
  }

  function WorkerMove(c: Config, s: State, e: Event): State
    requires WorkerEnabled(c, s, e)
  {
    // NewHub starts the second worker after its first send and the coordinator after its second.
    if e.StartFirst? then s.(sent := 1, w0 := Received, w1 := Idle)
    else if e.StartSecond? then SetPc(s, e.w, Received).(sent := 2, co := Selecting)
    else
      s.(w0 := if e.w then s.w0 else WorkerPc(s, e),
         w1 := if e.w then WorkerPc(s, e) else s.w1,
         wg := if e.WorkerAdd? then s.wg + 1 else if e.WorkerDone? then s.wg - 1 else s.wg,
         created := if e.WorkerMake? then s.created + [Lab(|s.created|, e.tag)] else s.created,
         labs := if e.WorkerSend? then s.labs + [Pc(s, e.w).lab] else s.labs,
         closed := if e.WorkerClose? then s.closed + multiset{Pc(s, e.w).lab} else s.closed)
  }

  /** Which moves of the coordinator that pass a lab or a token on are possible. */
  predicate CoordEnabled(c: Config, s: State, e: Event) {
    match e
    case CoordReceive => s.co.Selecting? && s.labs != []
    case CoordMeet(w) => s.co.Selecting? && c.ChannelSize() == 0 && Pc(s, w).Offering? && !s.labsClosed
    case CoordEnqueue => s.co.Enqueueing? && |s.queue| < c.ChannelSize()
    case CoordSignal(w) => s.co.Signalling? && !s.readyClosed && Pc(s, w).Idle?
    case CoordDrain => s.co.Draining? && s.labs != []
    case CoordSweep(lab) => s.co.Sweeping? && lab in s.co.left
    case _ => false
  }

  function CoordMove(c: Config, s: State, e: Event): State
    requires CoordEnabled(c, s, e)
  {
    match e
    case CoordReceive => Register(s.(labs := s.labs[1..]), s.labs[0])
    case CoordMeet(w) => Register(SetPc(s, w, Handed), Pc(s, w).lab)
    case CoordEnqueue => s.(queue := s.queue + [s.co.lab], co := Deciding)
    case CoordSignal(w) => SetPc(s, w, Received).(co := Selecting)
    case CoordDrain => s.(labs := s.labs[1..], closed := s.closed + multiset{s.labs[0]})
    case CoordSweep(lab) => s.(closed := s.closed + multiset{lab}, co := Sweeping(s.co.left - {lab}))
  }

  /** Which moves of the coordinator that only change its program counter and close channels are possible. */
  predicate ControlEnabled(c: Config, s: State, e: Event) {
    match e
    case CoordSkip => s.co.Enqueueing? && s.stop
    case CoordDecide => s.co.Deciding?
    case CoordStop => s.co.Selecting? && s.stop
    case CoordWaitDone => s.co.Waiting? && s.wg == 0
    case CoordDrained => s.co.Draining? && s.labs == []
    case CoordSwept => s.co.Sweeping? && s.co.left == {}
    case _ => false
  }

  /** The two tests after a lab has been queued: "minus one, as one worker is inactive". */
  predicate LastOneStarting(c: Config, s: State) { |s.started| + 2 - 1 == c.cap }

  function ControlPc(c: Config, s: State, e: Event): Coordinator
    requires ControlEnabled(c, s, e)
  {
    match e
    case CoordSkip => Selecting
    case CoordDecide => if LastOneStarting(c, s) || |s.started| == c.cap then Selecting else Signalling
    case CoordStop => Waiting
    case CoordWaitDone => Draining
    case CoordDrained => Sweeping(s.started.Values)
    case CoordSwept => Finished
  }

  function ControlMove(c: Config, s: State, e: Event): State
    requires ControlEnabled(c, s, e)
  {
    s.(co := ControlPc(c, s, e),
       labsClosed := s.labsClosed || e.CoordWaitDone?,
       readyClosed := s.readyClosed || e.CoordSwept? || (e.CoordDecide? && LastOneStarting(c, s)))
  }

  /** Which moves of consumers, Update and the forwarder are possible. */
  predicate OutsideEnabled(c: Config, s: State, e: Event) {
    match e
    case Close => s.sent == 2 && !s.stop
    case Take => s.queue != []
    case TakeFromCoordinator => s.co.Enqueueing? && c.ChannelSize() == 0
    case TakeFromForwarder => s.forwarding.Some? && c.ChannelSize() == 0
    case Return(lab) => lab in s.taken
    case Deallocate(lab) => lab in s.updating && |s.deallocated| < c.cap
    case HandOver(lab) => lab in s.updating && c.cap == 0 && s.forwarding.None?
    case Forward => s.forwarding.None? && s.deallocated != []
    case ForwardEnqueue => s.forwarding.Some? && |s.queue| < c.ChannelSize()
    case _ => false
  }

  /** Labs taken by consumers: out of the queue, or straight from a sender when the queue is unbuffered. */
  function TakenAfter(c: Config, s: State, e: Event): multiset<Lab>
    requires OutsideEnabled(c, s, e)
  {
    match e
    case Take => s.taken + multiset{s.queue[0]}
    case TakeFromCoordinator => s.taken + multiset{s.co.lab}
    case TakeFromForwarder => s.taken + multiset{s.forwarding.value}
    case Return(lab) => s.taken - multiset{lab}
    case _ => s.taken
  }

  /** The lab in the forwarder's hand. */
  function ForwardingAfter(c: Config, s: State, e: Event): Option<Lab>
    requires OutsideEnabled(c, s, e)
  {
    match e
    case TakeFromForwarder => None
    case ForwardEnqueue => None
    case HandOver(lab) => Some(lab)
    case Forward => Some(s.deallocated[0])
    case _ => s.forwarding
  }

  function OutsideMove(c: Config, s: State, e: Event): State
    requires OutsideEnabled(c, s, e)
  {
    s.(stop := s.stop || e.Close?,
       co := if e.TakeFromCoordinator? then Deciding else s.co,
       queue := if e.Take? then s.queue[1..]
                else if e.ForwardEnqueue? then s.queue + [s.forwarding.value] else s.queue,
       taken := TakenAfter(c, s, e),
       updating := if e.Return? then s.updating + multiset{e.lab}
                   else if e.Deallocate? || e.HandOver? then s.updating - multiset{e.lab} else s.updating,
       deallocated := if e.Deallocate? then s.deallocated + [e.lab]
                      else if e.Forward? then s.deallocated[1..] else s.deallocated,
       forwarding := ForwardingAfter(c, s, e))
  }

  predicate Enabled(c: Config, s: State, e: Event) {
    WorkerEnabled(c, s, e) || CoordEnabled(c, s, e) || ControlEnabled(c, s, e) || OutsideEnabled(c, s, e)
  }

  /** One move; `None` when event `e` cannot happen in state `s`. */
  function Next(c: Config, s: State, e: Event): Option<State> {
    if WorkerEnabled(c, s, e) then Some(WorkerMove(c, s, e))
    else if CoordEnabled(c, s, e) then Some(CoordMove(c, s, e))
    else if ControlEnabled(c, s, e) then Some(ControlMove(c, s, e))
    else if OutsideEnabled(c, s, e) then Some(OutsideMove(c, s, e))
    else None
  }

  /** The state after a whole run from state `s`, if every event of it could happen. */
  function Exec(c: Config, s: State, es: seq<Event>): Option<State> {
    if es == [] then Some(s)
    else
      match Exec(c, s, es[..|es| - 1])
      case None => None
      case Some(t) => Next(c, t, es[|es| - 1])
  }

  predicate Run(c: Config, es: seq<Event>, s: State) { Exec(c, Initial(), es) == Some(s) }

  /** Coordinator and both workers have returned. */
  predicate Complete(s: State) { s.co.Finished? && s.w0.Exited? && s.w1.Exited? }

  /** A goroutine may now send on a closed channel, which panics. */
  predicate PanicEnabled(s: State) {
    (s.labsClosed && (s.w0.Offering? || s.w1.Offering?)) || (s.readyClosed && (s.co.Signalling? || s.sent < 2))
  }

  /** A worker holds a token but is not yet counted by the wait group. */
  predicate Uncounted(s: State) { s.w0.Received? || s.w1.Received? }
}
