/** The exercises of one lab together (exercise/environment.go). */
module Environments {
  import opened Wrappers
  import opened Exercises

  /** An exercise as a value. */
  datatype Ex = Ex(config: Config, data: Data)

  // ----- Suspending and resuming -----

  predicate SomeSuspended(ms: seq<Machine>) { Suspended in ms }

  /** Resume starts the whole exercise as soon as one of its machines is suspended. */
  function ResumedMachines(ms: seq<Machine>, faults: Faults): (seq<Machine>, bool) {
    if SomeSuspended(ms) then (StartedMachines(ms, faults), Starts(ms, faults)) else (ms, true)
  }

  function WithMachines(x: Ex, ms: seq<Machine>): Ex { x.(data := x.data.(machines := ms)) }

  /** Each walks over the exercises in order and gives up at the first that fails. */
  function SuspendAll(xs: seq<Ex>, faults: seq<Faults>, from: nat): (out: (seq<Ex>, bool))
    requires from <= |xs| == |faults|
    ensures |out.0| == |xs|
    decreases |xs| - from
  {
    if from == |xs| then (xs, true)
    else
      var (ms, ok) := SuspendedMachines(xs[from].data.machines, faults[from], 0);
      var next := xs[from := WithMachines(xs[from], ms)];
      if ok then SuspendAll(next, faults, from + 1) else (next, false)
  }

  function ResumeAll(xs: seq<Ex>, faults: seq<Faults>, from: nat): (out: (seq<Ex>, bool))
    requires from <= |xs| == |faults|
    ensures |out.0| == |xs|
    decreases |xs| - from
  {
    if from == |xs| then (xs, true)
    else
      var (ms, ok) := ResumedMachines(xs[from].data.machines, faults[from]);
      var next := xs[from := WithMachines(xs[from], ms)];
      if ok then ResumeAll(next, faults, from + 1) else (next, false)
  }

  /** An exercise can be reset: its addresses, old or offered, are one for each container. */
  predicate Resettable(x: Ex, a: Attempt) { Addressed(x.config, x.data) && |a.offered| == |x.config.containers| }

  predicate Ready(xs: seq<Ex>, attempts: seq<Attempt>) {
    |xs| == |attempts| && forall i :: 0 <= i < |xs| ==> Resettable(xs[i], attempts[i])
  }

  function AfterAttempt(x: Ex, a: Attempt): Ex
    requires Resettable(x, a)
  {
    x.(data := AfterReset(x.config, x.data, a.offered, a.fail, a.faults))
  }

  function ResetAll(xs: seq<Ex>, attempts: seq<Attempt>, from: nat): (out: (seq<Ex>, bool))
    requires Ready(xs, attempts) && from <= |xs|
    ensures |out.0| == |xs|
    decreases |xs| - from
  {
    if from == |xs| then (xs, true)
    else
      var a, x := attempts[from], xs[from];
      var next := xs[from := AfterAttempt(x, a)];
      if Resets(x.config, a.fail, a.faults) then ResetAll(next, attempts, from + 1) else (next, false)
  }

  // ----- The DNS records of the environment -----

  const A: Text := [65]

  /** What Add writes down for one container: its A records under its address; clients are skipped. */
  function Pointers(c: Container, ip: nat, k: nat): seq<(nat, Text)>
    requires k <= |c.records|
  {
    if k == 0 then []
    else Pointers(c, ip, k - 1)
         + if !c.client && c.records[k - 1].kind == A then [(ip, c.records[k - 1].name)] else []
  }

  function PointersOf(c: Config, ips: seq<nat>, k: nat): seq<(nat, Text)>
    requires k <= |c.containers| && k <= |ips|
  {
    if k == 0 then []
    else PointersOf(c, ips, k - 1) + Pointers(c.containers[k - 1], ips[k - 1], |c.containers[k - 1].records|)
  }

  /** The addresses an exercise holds. */
  function Held(x: Ex): seq<nat> { match x.data.ips case Some(ips) => ips case None => [] }

  predicate Placed(x: Ex) {
    Addressed(x.config, x.data) && (!x.config.isStatic ==> |Held(x)| == |x.config.containers|)
  }

  predicate AllPlaced(xs: seq<Ex>) { forall i :: 0 <= i < |xs| ==> Placed(xs[i]) }

  function AllPointers(xs: seq<Ex>): seq<(nat, Text)>
    requires AllPlaced(xs)
  {
    if xs == [] then []
    else
      var x := xs[|xs| - 1];
      assert Placed(x);
      AllPointers(xs[..|xs| - 1])
      + if x.config.isStatic then [] else PointersOf(x.config, Held(x), |x.config.containers|)
  }

  ghost predicate Recorded(xs: seq<Ex>, dnsrecords: seq<(nat, Text)>) {
    AllPlaced(xs) && dnsrecords == AllPointers(xs)
  }

  // ----- The class -----

  datatype AddResult = Added | MissingTag | DuplicateTag | NotCreated

  /** The exercises as values, in order. */
  ghost function Values(es: seq<Exercise>): (xs: seq<Ex>)
    reads es
    ensures |xs| == |es|
  {
    seq(|es|, i requires 0 <= i < |es| reads es => Ex(es[i].config, es[i].Contents()))
  }

  /** The added exercises are built from the first configurations, in order. */
  ghost predicate MadeFrom(added: seq<Exercise>, confs: seq<Config>) {
    |added| <= |confs| && forall i :: 0 <= i < |added| ==> added[i].config == confs[i]
  }

  lemma MadeNext(added: seq<Exercise>, confs: seq<Config>, e: Exercise)
    requires MadeFrom(added, confs) && |added| < |confs| && e.config == confs[|added|]
    ensures MadeFrom(added + [e], confs)
  {
  }

  ghost predicate Offered(confs: seq<Config>, offers: seq<Attempt>) {
    |offers| == |confs| && forall i :: 0 <= i < |confs| ==> |offers[i].offered| == |confs[i].containers|
  }

  lemma MadeNone(confs: seq<Config>)
    ensures MadeFrom([], confs)
  {
  }

  lemma OfferedAt(confs: seq<Config>, offers: seq<Attempt>)
    requires Offered(confs, offers)
    ensures |offers| == |confs| && forall i :: 0 <= i < |confs| ==> |offers[i].offered| == |confs[i].containers|
  {
  }

  class Environment {
    var tags: map<string, Exercise>
    var exercises: seq<Exercise>
    var dnsrecords: seq<(nat, Text)>

    ghost function Contents(): seq<Ex>
      reads this`exercises, exercises
    {
      Values(exercises)
    }

    ghost predicate Distinct()
      reads this
    {
      forall i, j :: 0 <= i < j < |exercises| ==> exercises[i] != exercises[j]
    }

    /** `tags` finds each exercise by its tag. */
    ghost predicate Linked()
      reads this
    {
      && (forall i :: 0 <= i < |exercises| ==>
            exercises[i].config.tag in tags && tags[exercises[i].config.tag] == exercises[i])
      && (forall t :: t in tags ==> tags[t] in exercises && tags[t].config.tag == t)
    }

    /** Besides, the DNS records are those of the addresses now held. */
    ghost predicate Valid()
      reads this, exercises
    {
      Distinct() && Linked() && Recorded(Contents(), dnsrecords)
    }

    constructor ()
      ensures Valid() && exercises == []
    {
      tags, exercises, dnsrecords := map[], [], [];
    }

    // What changes one exercise changes one place of the contents.
    twostate lemma OneChanged(i: nat)
      requires old(Distinct()) && exercises == old(exercises) && i < |exercises|
      requires forall k :: 0 <= k < |exercises| && k != i ==> unchanged(exercises[k])
      ensures Contents() == old(Contents())[i := Ex(exercises[i].config, exercises[i].Contents())]
    {
    }

    method Suspend(faults: seq<Faults>) returns (ok: bool)
      requires Valid() && |faults| == |exercises|
      modifies exercises
      ensures (Contents(), ok) == SuspendAll(old(Contents()), faults, 0)
      ensures Valid()
    {
      ghost var before, target := Contents(), SuspendAll(Contents(), faults, 0);
      hide *;
      assert Recorded(target.0, dnsrecords) by { SuspendKeepsRecords(before, faults, dnsrecords); }
      for i := 0 to |exercises|
        invariant |Contents()| == |exercises| == |faults| && Distinct()
        invariant SuspendAll(Contents(), faults, i) == target
      {
        ok := SuspendAt(i, faults);
        assert Distinct() && |Contents()| == |exercises|;
        if !ok { return; }
      }
      SuspendEnd(Contents(), faults);
      ok := true;
    }

    method SuspendAt(i: nat, faults: seq<Faults>) returns (ok: bool)
      requires Distinct() && i < |exercises| == |faults|
      modifies exercises[i]
      ensures SuspendAll(old(Contents()), faults, i)
              == if ok then SuspendAll(Contents(), faults, i + 1) else (Contents(), false)
    {
      SuspendStep(Contents(), faults, i);
      hide SuspendAll, SuspendedMachines;
      ok := exercises[i].Suspend(faults[i]);
      OneChanged(i);
    }

    method Resume(faults: seq<Faults>) returns (ok: bool)
      requires Valid() && |faults| == |exercises|
      modifies exercises
      ensures (Contents(), ok) == ResumeAll(old(Contents()), faults, 0)
      ensures Valid()
    {
      ghost var before, target := Contents(), ResumeAll(Contents(), faults, 0);
      hide *;
      assert Recorded(target.0, dnsrecords) by { ResumeKeepsRecords(before, faults, dnsrecords); }
      for i := 0 to |exercises|
        invariant |Contents()| == |exercises| == |faults| && Distinct()
        invariant ResumeAll(Contents(), faults, i) == target
      {
        ok := ResumeAt(i, faults);
        assert Distinct() && |Contents()| == |exercises|;
        if !ok { return; }
      }
      ResumeEnd(Contents(), faults);
      ok := true;
    }

    method ResumeAt(i: nat, faults: seq<Faults>) returns (ok: bool)
      requires Distinct() && i < |exercises| == |faults|
      modifies exercises[i]
      ensures ResumeAll(old(Contents()), faults, i)
              == if ok then ResumeAll(Contents(), faults, i + 1) else (Contents(), false)
    {
      ResumeStep(Contents(), faults, i);
      hide ResumeAll, ResumedMachines;
      ok := ResumeOne(exercises[i], faults[i]);
      OneChanged(i);
    }

    /** The inner loop of Resume.  It goes over a list of states taken before the first start. */
    method ResumeOne(e: Exercise, faults: Faults) returns (ok: bool)
      modifies e`machines
      ensures (e.machines, ok) == ResumedMachines(old(e.machines), faults)
    {
      var infos := e.machines;
      for j := 0 to |infos|
        invariant |e.machines| == |infos|
        invariant SomeSuspended(infos[..j]) ==>
                    Starts(infos, faults) && e.machines == StartedMachines(infos, faults)
        invariant !SomeSuspended(infos[..j]) ==> e.machines == infos
      {
        assert infos[..j + 1] == infos[..j] + [infos[j]];
        if infos[j] == Suspended {
          assert infos[j] in infos;
          ok := e.Start(faults);
          if !ok { return; }
          assert e.machines == StartedMachines(infos, faults);
        }
      }
      assert infos[..|infos|] == infos;
      ok := true;
    }

    /** Reset; `services` says whether the DHCP and DNS servers come up again. */
    method Reset(services: bool, attempts: seq<Attempt>) returns (ok: bool)
      requires Valid() && Ready(Contents(), attempts)
      modifies exercises
      ensures (Contents(), ok) == if services then ResetAll(old(Contents()), attempts, 0) else (old(Contents()), false)
      ensures Valid()
    {
      if !services { return false; }
      ghost var before, target := Contents(), ResetAll(Contents(), attempts, 0);
      ResetKeepsAddresses(before, attempts, 0);
      StaysRecorded(before, target.0, dnsrecords);
      hide *;
      for i := 0 to |exercises|
        invariant |Contents()| == |exercises| == |attempts| && Distinct() && Ready(Contents(), attempts)
        invariant ResetAll(Contents(), attempts, i) == target
      {
        ResetStep(Contents(), attempts, i);
        ok := ResetAt(i, attempts[i]);
        if !ok { return; }
      }
      ResetEnd(Contents(), attempts);
      ok := true;
    }

    method ResetAt(i: nat, a: Attempt) returns (ok: bool)
      requires Distinct() && i < |exercises|
      requires Resettable(Contents()[i], a)
      modifies exercises[i]
      ensures Contents() == old(Contents())[i := AfterAttempt(old(Contents())[i], a)]
      ensures ok <==> Resets(old(Contents())[i].config, a.fail, a.faults)
    {
      hide AfterReset, Resets;
      ok := exercises[i].Reset(a.offered, a.fail, a.faults);
      OneChanged(i);
    }

    /** Add; `offers` says for each exercise what the network hands out and where its creation fails. */
    method Add(confs: seq<Config>, offers: seq<Attempt>) returns (r: AddResult, ghost added: seq<Exercise>)
      requires Valid() && Offered(confs, offers)
      modifies this
      ensures Valid() && exercises == old(exercises) + added && MadeFrom(added, confs)
      ensures r == Added <==> |added| == |confs|
      ensures r == MissingTag ==> confs[|added|].tag == ""
      ensures r == DuplicateTag ==> confs[|added|].tag in tags
      ensures r == NotCreated ==> !confs[|added|].isStatic && !Creates(confs[|added|], offers[|added|].fail)
    {
      added := [];
      r := Added;
      hide *;
      assert MadeFrom(added, confs) by { MadeNone(confs); }
      assert |offers| == |confs| by { OfferedAt(confs, offers); }
      for i := 0 to |confs|
        invariant Valid() && exercises == old(exercises) + added && |added| == i && MadeFrom(added, confs)
      {
        OfferedAt(confs, offers);
        r := AddOne(confs[i], offers[i]);
        if r != Added { return; }
        MadeNext(added, confs, tags[confs[i].tag]);
        added := added + [tags[confs[i].tag]];
      }
      r := Added;
    }

    /** One round of the loop of Add. */
    method AddOne(conf: Config, offer: Attempt) returns (r: AddResult)
      requires Valid() && |offer.offered| == |conf.containers|
      modifies this
      ensures Valid()
      ensures r == Added ==> conf.tag in tags && exercises == old(exercises) + [tags[conf.tag]]
                             && fresh(tags[conf.tag]) && tags[conf.tag].config == conf
      ensures r != Added ==> exercises == old(exercises) && tags == old(tags)
      ensures r == MissingTag ==> conf.tag == ""
      ensures r == DuplicateTag ==> conf.tag in tags
      ensures r == NotCreated ==> !conf.isStatic && !Creates(conf, offer.fail)
    {
      if conf.tag == "" { return MissingTag; }
      if conf.tag in tags { return DuplicateTag; }
      ghost var before := Contents();
      var ok, e := NewCreated(conf, offer);
      if !ok { return NotCreated; }
      ghost var x := Ex(e.config, e.Contents());
      hide Recorded, Placed, PointersOf, Held, Linked, Distinct, Contents;
      RecordedWith(before, x, dnsrecords);
      if !conf.isStatic {
        HeldIs(x);
        WriteRecords(conf, if e.ips.Some? then e.ips.value else []);
      }
      Link(e);
      r := Added;
    }

    /** The new exercise, created unless it is static. */
    static method NewCreated(conf: Config, offer: Attempt) returns (ok: bool, e: Exercise)
      requires |offer.offered| == |conf.containers|
      ensures fresh(e) && e.config == conf
      ensures ok <==> conf.isStatic || Creates(conf, offer.fail)
      ensures ok ==> Placed(Ex(conf, e.Contents()))
    {
      e := new Exercise(conf);
      ok := true;
      if !conf.isStatic { ok := e.Create(offer.offered, offer.fail); }
    }

    method Link(e: Exercise)
      requires Distinct() && Linked() && e.config.tag !in tags
      modifies this`tags, this`exercises
      ensures Distinct() && Linked()
      ensures e.config.tag in tags && tags[e.config.tag] == e && exercises == old(exercises) + [e]
      ensures Contents() == old(Contents()) + [Ex(e.config, e.Contents())]
    {
      tags := tags[e.config.tag := e];
      assert Values(exercises + [e]) == Values(exercises) + [Ex(e.config, e.Contents())];
      hide Values;
      exercises := exercises + [e];
    }

    method WriteRecords(c: Config, ips: seq<nat>)
      requires |ips| == |c.containers|
      modifies this`dnsrecords
      ensures dnsrecords == old(dnsrecords) + PointersOf(c, ips, |c.containers|)
    {
      for i := 0 to |c.containers|
        invariant dnsrecords == old(dnsrecords) + PointersOf(c, ips, i)
      {
        ghost var before := dnsrecords;
        var container := c.containers[i];
        for k := 0 to |container.records|
          invariant dnsrecords == before + Pointers(container, ips[i], k)
        {
          if container.client { continue; }
          if container.records[k].kind == A { dnsrecords := dnsrecords + [(ips[i], container.records[k].name)]; }
        }
      }
    }
  }

  // ----- Laws -----

  predicate SameAddresses(x: Ex, y: Ex) { x.config == y.config && x.data.ips == y.data.ips }

  predicate AllSame(xs: seq<Ex>, ys: seq<Ex>) {
    |xs| == |ys| && forall i :: 0 <= i < |xs| ==> SameAddresses(xs[i], ys[i])
  }

  /** The DNS records depend on the addresses only. */
  lemma {:induction false} MachinesDoNotMatter(xs: seq<Ex>, ys: seq<Ex>)
    requires AllPlaced(xs) && AllSame(xs, ys)
    ensures AllPlaced(ys) && AllPointers(xs) == AllPointers(ys)
  {
    assert forall i :: 0 <= i < |ys| ==> SameAddresses(xs[i], ys[i]) && Placed(xs[i]);
    if xs != [] { MachinesDoNotMatter(xs[..|xs| - 1], ys[..|ys| - 1]); }
  }

  lemma HeldIs(x: Ex)
    requires Placed(x) && !x.config.isStatic
    ensures Held(x) == (match x.data.ips case Some(ips) => ips case None => [])
    ensures |Held(x)| == |x.config.containers|
  {
  }

  lemma RecordedWith(xs: seq<Ex>, x: Ex, dnsrecords: seq<(nat, Text)>)
    requires Recorded(xs, dnsrecords) && Placed(x)
    ensures x.config.isStatic ==> Recorded(xs + [x], dnsrecords)
    ensures !x.config.isStatic ==>
              Recorded(xs + [x], dnsrecords + PointersOf(x.config, Held(x), |x.config.containers|))
  {
    assert (xs + [x])[..|xs|] == xs;
    assert forall i :: 0 <= i < |xs| ==> (xs + [x])[i] == xs[i];
  }

  lemma StaysRecorded(xs: seq<Ex>, ys: seq<Ex>, dnsrecords: seq<(nat, Text)>)
    requires Recorded(xs, dnsrecords) && AllSame(xs, ys)
    ensures Recorded(ys, dnsrecords)
  {
    MachinesDoNotMatter(xs, ys);
  }

  lemma SuspendKeepsRecords(xs: seq<Ex>, faults: seq<Faults>, dnsrecords: seq<(nat, Text)>)
    requires |xs| == |faults| && Recorded(xs, dnsrecords)
    ensures Recorded(SuspendAll(xs, faults, 0).0, dnsrecords)
  {
    SuspendKeepsAddresses(xs, faults, 0);
    StaysRecorded(xs, SuspendAll(xs, faults, 0).0, dnsrecords);
  }

  lemma SuspendStep(xs: seq<Ex>, faults: seq<Faults>, i: nat)
    requires i < |xs| == |faults|
    ensures var (ms, ok) := SuspendedMachines(xs[i].data.machines, faults[i], 0);
      var next := xs[i := WithMachines(xs[i], ms)];
      SuspendAll(xs, faults, i) == if ok then SuspendAll(next, faults, i + 1) else (next, false)
  {
  }

  lemma SuspendEnd(xs: seq<Ex>, faults: seq<Faults>)
    requires |xs| == |faults|
    ensures SuspendAll(xs, faults, |xs|) == (xs, true)
  {
  }

  lemma {:induction false} SuspendKeepsAddresses(xs: seq<Ex>, faults: seq<Faults>, from: nat)
    requires from <= |xs| == |faults|
    ensures AllSame(xs, SuspendAll(xs, faults, from).0)
    decreases |xs| - from
  {
    if from < |xs| {
      var (ms, ok) := SuspendedMachines(xs[from].data.machines, faults[from], 0);
      if ok { SuspendKeepsAddresses(xs[from := WithMachines(xs[from], ms)], faults, from + 1); }
    }
  }

  lemma ResumeKeepsRecords(xs: seq<Ex>, faults: seq<Faults>, dnsrecords: seq<(nat, Text)>)
    requires |xs| == |faults| && Recorded(xs, dnsrecords)
    ensures Recorded(ResumeAll(xs, faults, 0).0, dnsrecords)
  {
    ResumeKeepsAddresses(xs, faults, 0);
    StaysRecorded(xs, ResumeAll(xs, faults, 0).0, dnsrecords);
  }

  lemma ResumeStep(xs: seq<Ex>, faults: seq<Faults>, i: nat)
    requires i < |xs| == |faults|
    ensures var (ms, ok) := ResumedMachines(xs[i].data.machines, faults[i]);
      var next := xs[i := WithMachines(xs[i], ms)];
      ResumeAll(xs, faults, i) == if ok then ResumeAll(next, faults, i + 1) else (next, false)
  {
  }

  lemma ResumeEnd(xs: seq<Ex>, faults: seq<Faults>)
    requires |xs| == |faults|
    ensures ResumeAll(xs, faults, |xs|) == (xs, true)
  {
  }

  lemma {:induction false} ResumeKeepsAddresses(xs: seq<Ex>, faults: seq<Faults>, from: nat)
    requires from <= |xs| == |faults|
    ensures AllSame(xs, ResumeAll(xs, faults, from).0)
    decreases |xs| - from
  {
    if from < |xs| {
      var (ms, ok) := ResumedMachines(xs[from].data.machines, faults[from]);
      if ok { ResumeKeepsAddresses(xs[from := WithMachines(xs[from], ms)], faults, from + 1); }
    }
  }

  lemma ResetStep(xs: seq<Ex>, attempts: seq<Attempt>, i: nat)
    requires Ready(xs, attempts) && i < |xs|
    ensures Resettable(xs[i], attempts[i])
    ensures var next := xs[i := AfterAttempt(xs[i], attempts[i])];
      && Ready(next, attempts)
      && ResetAll(xs, attempts, i)
         == if Resets(xs[i].config, attempts[i].fail, attempts[i].faults) then ResetAll(next, attempts, i + 1)
            else (next, false)
  {
  }

  lemma ResetEnd(xs: seq<Ex>, attempts: seq<Attempt>)
    requires Ready(xs, attempts)
    ensures ResetAll(xs, attempts, |xs|) == (xs, true)
  {
  }

  lemma {:induction false} ResetKeepsAddresses(xs: seq<Ex>, attempts: seq<Attempt>, from: nat)
    requires Ready(xs, attempts) && from <= |xs| && AllPlaced(xs)
    ensures AllSame(xs, ResetAll(xs, attempts, from).0)
    decreases |xs| - from
  {
    if from < |xs| {
      var a, x := attempts[from], xs[from];
      assert Placed(x);
      AttemptKeepsAddresses(x, a);
      if Resets(x.config, a.fail, a.faults) { ResetKeepsAddresses(xs[from := AfterAttempt(x, a)], attempts, from + 1); }
    }
  }

  lemma AttemptKeepsAddresses(x: Ex, a: Attempt)
    requires Placed(x) && |a.offered| == |x.config.containers|
    ensures SameAddresses(x, AfterAttempt(x, a)) && Placed(AfterAttempt(x, a))
  {
  }

  // ----- What the DNS records are -----

  datatype Place = Place(exercise: nat, container: nat, record: nat)

  /** The order in which Add comes to the places. */
  predicate Before(p: Place, q: Place) {
    p.exercise < q.exercise
    || (p.exercise == q.exercise
        && (p.container < q.container || (p.container == q.container && p.record < q.record)))
  }

  /** At this place is a record of type A of a container that is not a client, in an exercise that is not static. */
  predicate ARecord(xs: seq<Ex>, p: Place) {
    && p.exercise < |xs| && !xs[p.exercise].config.isStatic
    && p.container < |xs[p.exercise].config.containers|
    && var c := xs[p.exercise].config.containers[p.container];
    !c.client && p.record < |c.records| && c.records[p.record].kind == [65]
  }

  /** The address of the container and the name in the record. */
  function NamedAt(xs: seq<Ex>, p: Place): (nat, Text)
    requires AllPlaced(xs) && ARecord(xs, p)
  {
    var x := xs[p.exercise];
    assert Placed(x);
    (x.data.ips.value[p.container], x.config.containers[p.container].records[p.record].name)
  }

  /** `dns` names what stands at the places `ps`, which are those of all A records before `q`, in order. */
  ghost predicate Lists(xs: seq<Ex>, dns: seq<(nat, Text)>, ps: seq<Place>, q: Place)
    requires AllPlaced(xs)
  {
    && |dns| == |ps|
    && (forall i, j :: 0 <= i < j < |ps| ==> Before(ps[i], ps[j]))
    && (forall p :: p in ps <==> ARecord(xs, p) && Before(p, q))
    && (forall i :: 0 <= i < |ps| && ARecord(xs, ps[i]) ==> dns[i] == NamedAt(xs, ps[i]))
  }

  lemma ListsNext(xs: seq<Ex>, dns: seq<(nat, Text)>, ps: seq<Place>, q: Place, r: Place)
    requires AllPlaced(xs) && Lists(xs, dns, ps, q)
    requires forall p :: Before(p, r) && ARecord(xs, p) <==> (Before(p, q) || p == q) && ARecord(xs, p)
    ensures ARecord(xs, q) ==> Lists(xs, dns + [NamedAt(xs, q)], ps + [q], r)
    ensures !ARecord(xs, q) ==> Lists(xs, dns, ps, r)
  {
    if ARecord(xs, q) {
      forall p ensures p in ps + [q] <==> ARecord(xs, p) && Before(p, r) {
        assert p in ps + [q] <==> p in ps || p == q;
      }
    }
  }

  lemma {:induction false} ListsToRecord(xs: seq<Ex>, i: nat, j: nat, k: nat) returns (ps: seq<Place>)
    requires AllPlaced(xs) && i < |xs| && !xs[i].config.isStatic && j < |xs[i].config.containers|
    requires k <= |xs[i].config.containers[j].records|
    ensures var x := xs[i];
      && |Held(x)| == |x.config.containers|
      && Lists(xs, AllPointers(xs[..i]) + PointersOf(x.config, Held(x), j)
                   + Pointers(x.config.containers[j], Held(x)[j], k), ps, Place(i, j, k))
    decreases i, j, k, 2
  {
    var x := xs[i];
    assert Placed(x);
    var before := AllPointers(xs[..i]) + PointersOf(x.config, Held(x), j);
    if k == 0 {
      ps := ListsToContainer(xs, i, j);
      assert before + [] == before;
    } else {
      ps := ListsToRecord(xs, i, j, k - 1);
      var c, q := x.config.containers[j], Place(i, j, k - 1);
      var dns := before + Pointers(c, Held(x)[j], k - 1);
      ListsNext(xs, dns, ps, q, Place(i, j, k));
      assert ARecord(xs, q) <==> !c.client && c.records[k - 1].kind == A;
      hide Lists, AllPointers, PointersOf;
      if ARecord(xs, q) {
        ps := ps + [q];
        assert before + Pointers(c, Held(x)[j], k) == dns + [NamedAt(xs, q)];
      } else {
        assert Pointers(c, Held(x)[j], k) == Pointers(c, Held(x)[j], k - 1) + [];
      }
    }
  }

  lemma {:induction false} ListsToContainer(xs: seq<Ex>, i: nat, j: nat) returns (ps: seq<Place>)
    requires AllPlaced(xs) && i < |xs| && !xs[i].config.isStatic && j <= |xs[i].config.containers|
    ensures var x := xs[i];
      && |Held(x)| == |x.config.containers|
      && Lists(xs, AllPointers(xs[..i]) + PointersOf(x.config, Held(x), j), ps, Place(i, j, 0))
    decreases i, j, 0, 1
  {
    var x := xs[i];
    assert Placed(x);
    if j == 0 {
      ps := ListsToExercise(xs, i);
      assert AllPointers(xs[..i]) + [] == AllPointers(xs[..i]);
    } else {
      var c := x.config.containers[j - 1];
      ps := ListsToRecord(xs, i, j - 1, |c.records|);
      var last := Pointers(c, Held(x)[j - 1], |c.records|);
      assert AllPointers(xs[..i]) + PointersOf(x.config, Held(x), j)
          == AllPointers(xs[..i]) + PointersOf(x.config, Held(x), j - 1) + last;
      ListsNext(xs, AllPointers(xs[..i]) + PointersOf(x.config, Held(x), j), ps, Place(i, j - 1, |c.records|),
                Place(i, j, 0));
    }
  }

  lemma {:induction false} ListsToExercise(xs: seq<Ex>, i: nat) returns (ps: seq<Place>)
    requires AllPlaced(xs) && i <= |xs|
    ensures Lists(xs, AllPointers(xs[..i]), ps, Place(i, 0, 0))
    decreases i, 0, 0, 0
  {
    if i == 0 {
      ps := [];
    } else {
      var x := xs[i - 1];
      assert Placed(x);
      assert xs[..i][..i - 1] == xs[..i - 1];
      if x.config.isStatic {
        ps := ListsToExercise(xs, i - 1);
        assert AllPointers(xs[..i]) == AllPointers(xs[..i - 1]) + [];
        ListsNext(xs, AllPointers(xs[..i]), ps, Place(i - 1, 0, 0), Place(i, 0, 0));
      } else {
        ps := ListsToContainer(xs, i - 1, |x.config.containers|);
        ListsNext(xs, AllPointers(xs[..i]), ps, Place(i - 1, |x.config.containers|, 0), Place(i, 0, 0));
      }
    }
  }

  /** `ps` are the places of all A records, in order, and `dns` names what stands there. */
  ghost predicate Enumerates(xs: seq<Ex>, dns: seq<(nat, Text)>, ps: seq<Place>)
    requires AllPlaced(xs)
  {
    && |ps| == |dns| && (forall i, j :: 0 <= i < j < |ps| ==> Before(ps[i], ps[j]))
    && (forall p :: p in ps <==> ARecord(xs, p))
    && (forall i :: 0 <= i < |ps| ==> ARecord(xs, ps[i]) && dns[i] == NamedAt(xs, ps[i]))
  }

  /** The DNS records are those of the A records of all containers that are no clients, in exercises that are not
      static, one for each and in their order; each gives the name in the record to the address of its container. */
  lemma RecordsInOrder(xs: seq<Ex>, dns: seq<(nat, Text)>) returns (ps: seq<Place>)
    requires Recorded(xs, dns)
    ensures Enumerates(xs, dns, ps)
  {
    ps := ListsToExercise(xs, |xs|);
    assert xs[..|xs|] == xs;
    hide AllPointers, NamedAt;
    assert forall p :: ARecord(xs, p) ==> Before(p, Place(|xs|, 0, 0));
    assert forall i :: 0 <= i < |ps| ==> ps[i] in ps;
  }

  /** The A records that give this name to this address. */
  ghost function Naming(xs: seq<Ex>, ip: nat, name: Text): set<Place>
    requires AllPlaced(xs)
  {
    set i: nat, j: nat, k: nat | i < |xs| && j < |xs[i].config.containers| && k < |xs[i].config.containers[j].records|
      && ARecord(xs, Place(i, j, k)) && NamedAt(xs, Place(i, j, k)) == (ip, name) :: Place(i, j, k)
  }

  // The places at which the record is `x`.
  ghost function Hits<P(!new), X>(ps: seq<P>, xs: seq<X>, x: X): (s: set<P>)
    requires |ps| == |xs|
    ensures forall p :: p in s <==> exists i :: 0 <= i < |ps| && ps[i] == p && xs[i] == x
  {
    if ps == [] then {}
    else Hits(ps[..|ps| - 1], xs[..|xs| - 1], x) + if xs[|xs| - 1] == x then {ps[|ps| - 1]} else {}
  }

  lemma {:induction false} HitsCount<P(!new), X>(ps: seq<P>, xs: seq<X>, x: X)
    requires |ps| == |xs| && forall i, j :: 0 <= i < j < |ps| ==> ps[i] != ps[j]
    ensures |Hits(ps, xs, x)| == multiset(xs)[x]
  {
    if ps != [] {
      var n := |ps| - 1;
      HitsCount(ps[..n], xs[..n], x);
      LastHit(ps, xs, x);
      LastCounts(xs, x);
    }
  }

  lemma LastHit<P(!new), X>(ps: seq<P>, xs: seq<X>, x: X)
    requires |ps| == |xs| > 0 && forall i, j :: 0 <= i < j < |ps| ==> ps[i] != ps[j]
    ensures var n := |ps| - 1; |Hits(ps, xs, x)| == |Hits(ps[..n], xs[..n], x)| + if xs[n] == x then 1 else 0
  {
    var n := |ps| - 1;
    var fewer := Hits(ps[..n], xs[..n], x);
    assert Hits(ps, xs, x) == fewer + if xs[n] == x then {ps[n]} else {};
    hide Hits;
    assert ps[n] !in fewer;
  }

  lemma LastCounts<X>(xs: seq<X>, x: X)
    requires xs != []
    ensures var n := |xs| - 1; multiset(xs)[x] == multiset(xs[..n])[x] + if xs[n] == x then 1 else 0
  {
    assert xs == xs[..|xs| - 1] + [xs[|xs| - 1]];
  }

  lemma HitsAreNaming(xs: seq<Ex>, dns: seq<(nat, Text)>, ps: seq<Place>, ip: nat, name: Text)
    requires AllPlaced(xs) && Enumerates(xs, dns, ps)
    ensures Hits(ps, dns, (ip, name)) == Naming(xs, ip, name)
    ensures (ip, name) in dns <==> Naming(xs, ip, name) != {}
  {
    hide Naming, ARecord, NamedAt, Before;
    forall p ensures p in Hits(ps, dns, (ip, name)) <==> p in Naming(xs, ip, name) { InNaming(xs, ip, name, p); }
    if (ip, name) in dns {
      var i :| 0 <= i < |dns| && dns[i] == (ip, name);
      assert ps[i] in Hits(ps, dns, (ip, name));
    }
    if p :| p in Naming(xs, ip, name) { assert p in Hits(ps, dns, (ip, name)); }
  }

  /** An address and a name are recorded as often as there are such A records: at least once exactly if some container
      that is no client, in an exercise that is not static, has an A record with the name and holds the address. */
  lemma RecordedIff(xs: seq<Ex>, dns: seq<(nat, Text)>, ip: nat, name: Text)
    requires Recorded(xs, dns)
    ensures multiset(dns)[(ip, name)] == |Naming(xs, ip, name)|
    ensures (ip, name) in dns <==> exists p :: ARecord(xs, p) && NamedAt(xs, p) == (ip, name)
  {
    var ps := RecordsInOrder(xs, dns);
    assert forall i, j :: 0 <= i < j < |ps| ==> ps[i] != ps[j] by { NeverBeforeItself(); }
    hide *;
    assert AllPlaced(xs) by { PlacedIfRecorded(xs, dns); }
    HitsAreNaming(xs, dns, ps, ip, name);
    assert |ps| == |dns| by { SameLength(xs, dns, ps); }
    HitsCount(ps, dns, (ip, name));
    forall p ensures p in Naming(xs, ip, name) <==> ARecord(xs, p) && NamedAt(xs, p) == (ip, name) {
      InNaming(xs, ip, name, p);
    }
  }

  lemma PlacedIfRecorded(xs: seq<Ex>, dns: seq<(nat, Text)>)
    requires Recorded(xs, dns)
    ensures AllPlaced(xs)
  {
  }

  lemma SameLength(xs: seq<Ex>, dns: seq<(nat, Text)>, ps: seq<Place>)
    requires AllPlaced(xs) && Enumerates(xs, dns, ps)
    ensures |ps| == |dns|
  {
  }

  lemma InNaming(xs: seq<Ex>, ip: nat, name: Text, p: Place)
    requires AllPlaced(xs)
    ensures p in Naming(xs, ip, name) <==> ARecord(xs, p) && NamedAt(xs, p) == (ip, name)
  {
    assert p == Place(p.exercise, p.container, p.record);
  }

  lemma NeverBeforeItself()
    ensures forall p :: !Before(p, p)
  {
  }

  /** What suspending and resuming leave of the machines of one exercise: if one was running or suspended, all of
      them run, also those that had been stopped. */
  function Woken(ms: seq<Machine>): (out: seq<Machine>)
    ensures |out| == |ms|
    ensures forall i :: 0 <= i < |ms| ==> out[i] == if Running in ms || Suspended in ms then Running else ms[i]
  {
    seq(|ms|, i requires 0 <= i < |ms| => if Running in ms || Suspended in ms then Running else ms[i])
  }

  lemma SuspendThenResumeMachines(ms: seq<Machine>, f: Faults, g: Faults)
    requires SuspendedMachines(ms, f, 0).1
    requires ResumedMachines(SuspendedMachines(ms, f, 0).0, g).1
    ensures ResumedMachines(SuspendedMachines(ms, f, 0).0, g).0 == Woken(ms)
  {
    var asleep := SuspendedMachines(ms, f, 0).0;
    assert SomeSuspended(asleep) <==> Running in ms || Suspended in ms by {
      if k :| 0 <= k < |ms| && (ms[k] == Running || ms[k] == Suspended) { assert asleep[k] == Suspended; }
      if k :| 0 <= k < |ms| && asleep[k] == Suspended { assert ms[k] in ms; }
    }
    if !SomeSuspended(asleep) { assert asleep == ms == Woken(ms); }
  }

  lemma {:induction false} SuspendAllAt(xs: seq<Ex>, faults: seq<Faults>, from: nat, i: nat)
    requires from <= |xs| == |faults| && i < |xs| && SuspendAll(xs, faults, from).1
    ensures var (ms, ok) := SuspendedMachines(xs[i].data.machines, faults[i], 0);
      if i < from then SuspendAll(xs, faults, from).0[i] == xs[i]
      else SuspendAll(xs, faults, from).0[i] == WithMachines(xs[i], ms) && ok
    decreases |xs| - from
  {
    if from < |xs| {
      hide SuspendedMachines;
      var ms := SuspendedMachines(xs[from].data.machines, faults[from], 0).0;
      SuspendAllAt(xs[from := WithMachines(xs[from], ms)], faults, from + 1, i);
    }
  }

  lemma {:induction false} ResumeAllAt(xs: seq<Ex>, faults: seq<Faults>, from: nat, i: nat)
    requires from <= |xs| == |faults| && i < |xs| && ResumeAll(xs, faults, from).1
    ensures var (ms, ok) := ResumedMachines(xs[i].data.machines, faults[i]);
      if i < from then ResumeAll(xs, faults, from).0[i] == xs[i]
      else ResumeAll(xs, faults, from).0[i] == WithMachines(xs[i], ms) && ok
    decreases |xs| - from
  {
    if from < |xs| {
      hide ResumedMachines;
      var ms := ResumedMachines(xs[from].data.machines, faults[from]).0;
      ResumeAllAt(xs[from := WithMachines(xs[from], ms)], faults, from + 1, i);
    }
  }

  /** No running machine of the exercise fails to be suspended. */
  predicate Suspends(x: Ex, f: Faults) {
    forall k :: 0 <= k < |x.data.machines| && x.data.machines[k] == Running ==> k !in f
  }

  /** If some machine of the exercise is suspended, then none that is not running fails to start. */
  predicate Resumes(x: Ex, f: Faults) {
    Suspended in x.data.machines ==>
      forall k :: 0 <= k < |x.data.machines| && x.data.machines[k] != Running ==> k !in f
  }

  lemma SuspendsMeans(x: Ex, f: Faults)
    ensures Suspends(x, f) <==> SuspendedMachines(x.data.machines, f, 0).1
  {
    SuspendSucceedsIff(x.data.machines, f, 0);
    hide SuspendedMachines;
  }

  lemma {:induction false} SuspendAllSucceedsIff(xs: seq<Ex>, faults: seq<Faults>, from: nat)
    requires from <= |xs| == |faults|
    ensures SuspendAll(xs, faults, from).1 <==> forall i :: from <= i < |xs| ==> Suspends(xs[i], faults[i])
    decreases |xs| - from
  {
    if from < |xs| {
      SuspendsMeans(xs[from], faults[from]);
      SuspendStep(xs, faults, from);
      hide SuspendedMachines, Suspends, SuspendAll;
      var ms := SuspendedMachines(xs[from].data.machines, faults[from], 0).0;
      SuspendAllSucceedsIff(xs[from := WithMachines(xs[from], ms)], faults, from + 1);
    }
  }

  /** Suspending that fails leaves the exercises before the failing one suspended, that one as far as it got, and those
      after it as they were. */
  lemma {:induction false} FailingSuspendAllLeaves(xs: seq<Ex>, faults: seq<Faults>, from: nat, j: nat, i: nat)
    requires from <= j < |xs| == |faults| && i < |xs|
    requires !Suspends(xs[j], faults[j]) && forall k :: from <= k < j ==> Suspends(xs[k], faults[k])
    ensures SuspendAll(xs, faults, from).0[i]
            == if from <= i <= j then WithMachines(xs[i], SuspendedMachines(xs[i].data.machines, faults[i], 0).0)
               else xs[i]
    decreases |xs| - from
  {
    SuspendsMeans(xs[from], faults[from]);
    SuspendStep(xs, faults, from);
    hide SuspendedMachines, Suspends, SuspendAll;
    if from < j {
      var ms := SuspendedMachines(xs[from].data.machines, faults[from], 0).0;
      FailingSuspendAllLeaves(xs[from := WithMachines(xs[from], ms)], faults, from + 1, j, i);
    }
  }

  lemma {:induction false} ResumeAllSucceedsIff(xs: seq<Ex>, faults: seq<Faults>, from: nat)
    requires from <= |xs| == |faults|
    ensures ResumeAll(xs, faults, from).1 <==> forall i :: from <= i < |xs| ==> Resumes(xs[i], faults[i])
    decreases |xs| - from
  {
    if from < |xs| {
      ResumeStep(xs, faults, from);
      assert Resumes(xs[from], faults[from]) <==> ResumedMachines(xs[from].data.machines, faults[from]).1;
      hide ResumedMachines, Resumes, ResumeAll;
      var ms := ResumedMachines(xs[from].data.machines, faults[from]).0;
      ResumeAllSucceedsIff(xs[from := WithMachines(xs[from], ms)], faults, from + 1);
    }
  }

  /** Resuming that fails leaves the exercises before the failing one resumed, in that one every machine running but
      those that failed, and the exercises after it as they were. */
  lemma {:induction false} FailingResumeAllLeaves(xs: seq<Ex>, faults: seq<Faults>, from: nat, j: nat, i: nat)
    requires from <= j < |xs| == |faults| && i < |xs|
    requires !Resumes(xs[j], faults[j]) && forall k :: from <= k < j ==> Resumes(xs[k], faults[k])
    ensures var x := ResumeAll(xs, faults, from).0[i];
      x == if from <= i <= j && Suspended in xs[i].data.machines
           then WithMachines(xs[i], StartedMachines(xs[i].data.machines, faults[i])) else xs[i]
    decreases |xs| - from
  {
    ResumeStep(xs, faults, from);
    assert Resumes(xs[from], faults[from]) <==> ResumedMachines(xs[from].data.machines, faults[from]).1;
    var ms := ResumedMachines(xs[from].data.machines, faults[from]).0;
    assert ms == if Suspended in xs[from].data.machines then StartedMachines(xs[from].data.machines, faults[from])
                 else xs[from].data.machines;
    hide ResumedMachines, Resumes, ResumeAll, StartedMachines;
    if from < j { FailingResumeAllLeaves(xs[from := WithMachines(xs[from], ms)], faults, from + 1, j, i); }
  }

  /** Suspending and then resuming, when both succeed: a machine runs afterwards exactly when it ran or some machine
      of its exercise was running or suspended; otherwise, and apart from the machines, nothing has changed. */
  lemma SuspendThenResume(xs: seq<Ex>, f: seq<Faults>, g: seq<Faults>)
    requires |xs| == |f| == |g|
    requires SuspendAll(xs, f, 0).1 && ResumeAll(SuspendAll(xs, f, 0).0, g, 0).1
    ensures var out := ResumeAll(SuspendAll(xs, f, 0).0, g, 0).0;
      forall i :: 0 <= i < |xs| ==> out[i] == WithMachines(xs[i], Woken(xs[i].data.machines))
  {
    hide SuspendAll, ResumeAll, SuspendedMachines, ResumedMachines, Woken;
    forall i | 0 <= i < |xs|
      ensures ResumeAll(SuspendAll(xs, f, 0).0, g, 0).0[i] == WithMachines(xs[i], Woken(xs[i].data.machines))
    {
      SuspendAllAt(xs, f, 0, i);
      ResumeAllAt(SuspendAll(xs, f, 0).0, g, 0, i);
      SuspendThenResumeMachines(xs[i].data.machines, f[i], g[i]);
    }
  }

  predicate AllRunning(xs: seq<Ex>) { forall i :: 0 <= i < |xs| ==> RunningFully(xs[i]) }

  /** A reset of the environment that succeeds leaves every exercise with all its machines, and all of them running,
      also those of exercises that had been left stopped because they are disabled. */
  lemma {:induction false} ResetStartsEverything(xs: seq<Ex>, attempts: seq<Attempt>, from: nat)
    requires Ready(xs, attempts) && from <= |xs| && ResetAll(xs, attempts, from).1
    requires forall i :: 0 <= i < from ==> RunningFully(xs[i])
    ensures AllRunning(ResetAll(xs, attempts, from).0)
    decreases |xs| - from
  {
    if from < |xs| {
      assert Resettable(xs[from], attempts[from]);
      AttemptStarts(xs[from], attempts[from]);
      hide AfterAttempt, RunningFully;
      ResetStartsEverything(xs[from := AfterAttempt(xs[from], attempts[from])], attempts, from + 1);
    }
  }

  predicate RunningFully(x: Ex) {
    |x.data.machines| == x.config.Units() && forall m :: 0 <= m < |x.data.machines| ==> x.data.machines[m] == Running
  }

  lemma AttemptStarts(x: Ex, a: Attempt)
    requires Resettable(x, a) && Resets(x.config, a.fail, a.faults)
    ensures RunningFully(AfterAttempt(x, a))
  {
  }

  // ----- When a reset can succeed, and what a failing one leaves -----

  predicate Succeeds(x: Ex, a: Attempt) { Resets(x.config, a.fail, a.faults) }

  lemma {:induction false} ResetSucceedsIff(xs: seq<Ex>, attempts: seq<Attempt>, from: nat)
    requires Ready(xs, attempts) && from <= |xs|
    ensures ResetAll(xs, attempts, from).1 <==> forall i :: from <= i < |xs| ==> Succeeds(xs[i], attempts[i])
    decreases |xs| - from
  {
    if from < |xs| {
      ResetStep(xs, attempts, from);
      hide ResetAll, AfterAttempt, Resets;
      if Succeeds(xs[from], attempts[from]) {
        ResetSucceedsIff(xs[from := AfterAttempt(xs[from], attempts[from])], attempts, from + 1);
      }
    }
  }

  /** Exercise `j` is the first whose attempt fails. */
  predicate FailsFirst(xs: seq<Ex>, attempts: seq<Attempt>, j: nat)
    requires Ready(xs, attempts)
  {
    j < |xs| && !Succeeds(xs[j], attempts[j]) && forall i :: 0 <= i < j ==> Succeeds(xs[i], attempts[i])
  }

  /** A reset that fails leaves the exercises before the failing one reset and running, the failing one as far as its
      own reset got, and those after it as they were. */
  lemma FailingResetLeaves(xs: seq<Ex>, attempts: seq<Attempt>, j: nat, i: nat)
    requires Ready(xs, attempts) && FailsFirst(xs, attempts, j) && i < |xs|
    ensures !ResetAll(xs, attempts, 0).1 && Resettable(xs[i], attempts[i])
    ensures var x := ResetAll(xs, attempts, 0).0[i];
      && (i < j ==> x == AfterAttempt(xs[i], attempts[i]) && RunningFully(x))
      && (i == j ==> x == AfterAttempt(xs[i], attempts[i])
                     && (!Creates(xs[i].config, attempts[i].fail) ==> x.data.machines == []))
      && (i > j ==> x == xs[i])
  {
    ResetSucceedsIff(xs, attempts, 0);
    ResetLeavesAt(xs, attempts, 0, j, i);
    assert Resettable(xs[i], attempts[i]);
    if i < j { AttemptStarts(xs[i], attempts[i]); }
    hide ResetAll;
  }

  lemma {:induction false} ResetLeavesAt(xs: seq<Ex>, attempts: seq<Attempt>, from: nat, j: nat, i: nat)
    requires Ready(xs, attempts) && FailsFirst(xs, attempts, j) && from <= j && i < |xs|
    ensures Resettable(xs[i], attempts[i])
    ensures ResetAll(xs, attempts, from).0[i] == if from <= i <= j then AfterAttempt(xs[i], attempts[i]) else xs[i]
    decreases |xs| - from
  {
    assert Resettable(xs[i], attempts[i]);
    ResetStep(xs, attempts, from);
    AttemptKeepsConfig(xs[from], attempts[from]);
    hide ResetAll, AfterAttempt, Resets;
    if from < j {
      var next := xs[from := AfterAttempt(xs[from], attempts[from])];
      assert FailsFirst(next, attempts, j);
      ResetLeavesAt(next, attempts, from + 1, j, i);
    }
  }

  lemma AttemptKeepsConfig(x: Ex, a: Attempt)
    requires Resettable(x, a)
    ensures AfterAttempt(x, a).config == x.config
  {
  }

  /** A static exercise with containers: there is nothing to make them from and no network for them. */
  predicate Stuck(c: Config) { c.isStatic && |c.containers| > 0 }

  function NoTrouble(c: Config): (a: Attempt)
    ensures |a.offered| == |c.containers|
  {
    Attempt(seq(|c.containers|, _ => 2), c.Units(), map[])
  }

  function NoTroubles(xs: seq<Ex>): (attempts: seq<Attempt>)
    ensures |attempts| == |xs|
    ensures forall i :: 0 <= i < |xs| ==> attempts[i] == NoTrouble(xs[i].config)
  {
    seq(|xs|, i requires 0 <= i < |xs| => NoTrouble(xs[i].config))
  }

  lemma SuccessMeansNoneStuck(xs: seq<Ex>, attempts: seq<Attempt>)
    requires Ready(xs, attempts) && ResetAll(xs, attempts, 0).1
    ensures forall i :: 0 <= i < |xs| ==> !Stuck(xs[i].config)
  {
    ResetSucceedsIff(xs, attempts, 0);
    hide ResetAll;
    forall i | 0 <= i < |xs| ensures !Stuck(xs[i].config) { assert Succeeds(xs[i], attempts[i]); }
  }

  lemma NoTroubleSucceeds(x: Ex)
    requires Addressed(x.config, x.data) && !Stuck(x.config)
    ensures Resettable(x, NoTrouble(x.config)) && Succeeds(x, NoTrouble(x.config))
  {
  }

  lemma NoneStuckMeansSuccess(xs: seq<Ex>)
    requires forall i :: 0 <= i < |xs| ==> Addressed(xs[i].config, xs[i].data)
    requires forall i :: 0 <= i < |xs| ==> !Stuck(xs[i].config)
    ensures Ready(xs, NoTroubles(xs)) && ResetAll(xs, NoTroubles(xs), 0).1
  {
    var attempts := NoTroubles(xs);
    forall i | 0 <= i < |xs| ensures Resettable(xs[i], attempts[i]) && Succeeds(xs[i], attempts[i]) {
      NoTroubleSucceeds(xs[i]);
    }
    ResetSucceedsIff(xs, attempts, 0);
  }

  /** The environment can be reset, if nothing goes wrong, exactly when no exercise of it is static with containers. */
  lemma EnvironmentResetsIff(xs: seq<Ex>)
    requires forall i :: 0 <= i < |xs| ==> Addressed(xs[i].config, xs[i].data)
    ensures (exists attempts :: Ready(xs, attempts) && ResetAll(xs, attempts, 0).1)
            <==> forall i :: 0 <= i < |xs| ==> !Stuck(xs[i].config)
  {
    hide ResetAll, Ready, Stuck;
    if attempts :| Ready(xs, attempts) && ResetAll(xs, attempts, 0).1 {
      SuccessMeansNoneStuck(xs, attempts);
    } else if forall i :: 0 <= i < |xs| ==> !Stuck(xs[i].config) {
      NoneStuckMeansSuccess(xs);
    }
  }
}
