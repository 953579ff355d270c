/** One exercise of a lab (exercise/exercise.go): its containers and virtual machines, the addresses they keep and
    the DNS records they add. */
module Exercises {
  import opened Wrappers
  import U = Utf8
  import opened Decimal

  type Text = seq<U.Byte>

  /** virtual.State */
  datatype Machine = Running | Stopped | Suspended | Error

  datatype Record = Record(name: Text, kind: Text, rdata: Text)

  datatype Container = Container(records: seq<Record>, client: bool)

  /** What an exercise is built from.  A static one is given neither images nor a network. */
  datatype Config = Config(tag: string, containers: seq<Container>, vms: nat, isStatic: bool, subnet: Text) {
    function Units(): nat { |containers| + vms }
  }

  datatype Data = Data(ips: Option<seq<nat>>, machines: seq<Machine>, dnsRecords: seq<Record>)

  /** Machines whose next operation fails, and the state this leaves them in. */
  type Faults = map<nat, Machine>

  // ----- Specification -----

  const DOT: U.Byte := 46

  function FormatIP(subnet: Text, ip: nat): Text { subnet + [DOT] + Itoa(ip) }

  /** A record without data gets the address of its container. */
  function Filled(r: Record, address: Text): Record { if r.rdata == [] then r.(rdata := address) else r }

  function FilledAll(rs: seq<Record>, address: Text): (out: seq<Record>)
    ensures |out| == |rs|
    ensures forall i :: 0 <= i < |rs| ==> out[i] == Filled(rs[i], address)
  {
    if rs == [] then [] else FilledAll(rs[..|rs| - 1], address) + [Filled(rs[|rs| - 1], address)]
  }

  /** The records of the first `k` containers at the given addresses. */
  function RecordsOf(c: Config, ips: seq<nat>, k: nat): seq<Record>
    requires k <= |c.containers| && k <= |ips|
  {
    if k == 0 then []
    else RecordsOf(c, ips, k - 1) + FilledAll(c.containers[k - 1].records, FormatIP(c.subnet, ips[k - 1]))
  }

  lemma RecordsStep(c: Config, ips: seq<nat>, k: nat, before: seq<Record>)
    requires k < |c.containers| && k < |ips|
    ensures before + RecordsOf(c, ips, k + 1)
            == before + RecordsOf(c, ips, k) + FilledAll(c.containers[k].records, FormatIP(c.subnet, ips[k]))
  {
  }

  /** An exercise whose addresses, once it has any, are one for each container. */
  predicate Addressed(c: Config, d: Data) {
    d.ips.Some? ==> |d.ips.value| == |c.containers| && |c.containers| > 0
  }

  /** The addresses Create uses: those kept, or the ones the network assigns. */
  function AddressesFor(d: Data, offered: seq<nat>): seq<nat> {
    match d.ips case Some(ips) => ips case None => offered
  }

  /** Where Create stops: at unit `fail`, if there is one.  For a static exercise that is its first container: its
      configuration is empty, without an image, and if the host did make a container of it, there would be no network
      to connect it to. */
  function FailsAt(c: Config, fail: nat): nat { if c.isStatic && |c.containers| > 0 then 0 else fail }

  predicate Creates(c: Config, fail: nat) { FailsAt(c, fail) >= c.Units() }

  function Created(c: Config, d: Data, offered: seq<nat>, fail: nat): Data
    requires Addressed(c, d) && |offered| == |c.containers|
  {
    var n, at := |c.containers|, FailsAt(c, fail);
    var records := d.dnsRecords + RecordsOf(c, AddressesFor(d, offered), if at < n then at else n);
    if !Creates(c, fail) then d.(dnsRecords := records)
    else Data(if d.ips.None? && n > 0 then Some(offered) else d.ips, seq(c.Units(), i => Stopped), records)
  }

  function StartedMachines(ms: seq<Machine>, faults: Faults): (out: seq<Machine>)
    ensures |out| == |ms|
    ensures forall i :: 0 <= i < |ms| ==>
              out[i] == if ms[i] == Running || i !in faults then Running else faults[i]
  {
    seq(|ms|, i requires 0 <= i < |ms| => if ms[i] == Running || i !in faults then Running else faults[i])
  }

  predicate Starts(ms: seq<Machine>, faults: Faults) {
    forall i :: 0 <= i < |ms| && ms[i] != Running ==> i !in faults
  }

  /** Suspending goes through the machines in order and gives up at the first that fails. */
  function SuspendedMachines(ms: seq<Machine>, faults: Faults, from: nat): (out: (seq<Machine>, bool))
    requires from <= |ms|
    ensures |out.0| == |ms|
    ensures out.1 ==> forall i :: 0 <= i < |ms| ==>
              out.0[i] == if i >= from && ms[i] == Running then Suspended else ms[i]
    decreases |ms| - from
  {
    if from == |ms| then (ms, true)
    else if ms[from] != Running then SuspendedMachines(ms, faults, from + 1)
    else if from in faults then (ms[from := faults[from]], false)
    else SuspendedMachines(ms[from := Suspended], faults, from + 1)
  }

  // ----- The class -----

  class Exercise {
    const config: Config
    var ips: Option<seq<nat>>
    var machines: seq<Machine>
    var dnsRecords: seq<Record>

    function Contents(): Data
      reads this
    {
      Data(ips, machines, dnsRecords)
    }

    constructor (config: Config)
      ensures this.config == config && Contents() == Data(None, [], [])
    {
      this.config := config;
      ips, machines, dnsRecords := None, [], [];
    }

    /** Create; `offered` is what the network hands out when asked for any address, and creation fails at unit
        `fail` if there is one. */
    method Create(offered: seq<nat>, fail: nat) returns (ok: bool)
      requires Addressed(config, Contents()) && |offered| == |config.containers|
      modifies this
      ensures Contents() == Created(config, old(Contents()), offered, fail)
      ensures ok <==> Creates(config, fail)
      ensures Addressed(config, Contents())
    {
      var made, newIps;
      ok, made, newIps := CreateContainers(offered, fail);
      if !ok { return; }
      hide RecordsOf;
      for i := 0 to config.vms
        invariant |config.containers| + i <= FailsAt(config, fail)
        invariant |made| == |config.containers| + i && forall k :: 0 <= k < |made| ==> made[k] == Stopped
      {
        if |config.containers| + i == fail { return false; }
        made := made + [Stopped];
      }
      if ips.None? && |newIps| > 0 { ips := Some(newIps); }
      machines := made;
      assert machines == seq(config.Units(), i => Stopped);
      ok := true;
    }

    /** The first loop of Create. */
    method CreateContainers(offered: seq<nat>, fail: nat) returns (ok: bool, made: seq<Machine>, newIps: seq<nat>)
      requires Addressed(config, Contents()) && |offered| == |config.containers|
      modifies this`dnsRecords
      ensures ok <==> FailsAt(config, fail) >= |config.containers|
      ensures dnsRecords == old(dnsRecords) + RecordsOf(config, AddressesFor(old(Contents()), offered),
                              if ok then |config.containers| else FailsAt(config, fail))
      ensures ok ==> newIps == if ips.Some? then [] else offered
      ensures ok ==> |made| == |config.containers| && forall k :: 0 <= k < |made| ==> made[k] == Stopped
    {
      made, newIps := [], [];
      ghost var addresses := AddressesFor(Contents(), offered);
      assert offered[..|config.containers|] == offered && RecordsOf(config, addresses, 0) == [];
      assert |addresses| == |config.containers|;
      assert addresses == if ips.Some? then ips.value else offered;
      assert FailsAt(config, fail) == if config.isStatic && |config.containers| > 0 then 0 else fail;
      hide *;
      for i := 0 to |config.containers|
        invariant i <= FailsAt(config, fail)
        invariant dnsRecords == old(dnsRecords) + RecordsOf(config, addresses, i)
        invariant newIps == if ips.Some? then [] else offered[..i]
        invariant |made| == i && forall k :: 0 <= k < i ==> made[k] == Stopped
      {
        if i == fail || config.isStatic { return false, made, newIps; }
        assert offered[..i + 1] == offered[..i] + [offered[i]];
        var lastDigit;
        if ips.Some? {
          lastDigit := ips.value[i];
        } else {
          lastDigit := offered[i];
          newIps := newIps + [lastDigit];
        }
        assert lastDigit == addresses[i];
        RecordsStep(config, addresses, i, old(dnsRecords));
        AppendRecords(config.containers[i].records, FormatIP(config.subnet, lastDigit));
        made := made + [Stopped];
      }
      ok := true;
    }

    /** The inner loop of Create. */
    method AppendRecords(records: seq<Record>, address: Text)
      modifies this`dnsRecords
      ensures dnsRecords == old(dnsRecords) + FilledAll(records, address)
    {
      for i := 0 to |records|
        invariant dnsRecords == old(dnsRecords) + FilledAll(records[..i], address)
      {
        var record := records[i];
        if record.rdata == [] { record := record.(rdata := address); }
        assert records[..i + 1][..i] == records[..i];
        dnsRecords := dnsRecords + [record];
      }
      assert records[..|records|] == records;
    }

    /** Start; the goroutines of the source touch one machine each. */
    method Start(faults: Faults) returns (ok: bool)
      modifies this`machines
      ensures machines == StartedMachines(old(machines), faults)
      ensures ok <==> Starts(old(machines), faults)
    {
      ok := true;
      for i := 0 to |machines|
        invariant |machines| == |old(machines)|
        invariant forall k :: 0 <= k < i ==> machines[k] == StartedMachines(old(machines), faults)[k]
        invariant forall k :: i <= k < |machines| ==> machines[k] == old(machines)[k]
        invariant ok <==> forall k :: 0 <= k < i && old(machines)[k] != Running ==> k !in faults
      {
        if machines[i] != Running {
          if i in faults {
            machines := machines[i := faults[i]];
            ok := false;
          } else {
            machines := machines[i := Running];
          }
        }
      }
    }

    method Suspend(faults: Faults) returns (ok: bool)
      modifies this`machines
      ensures (machines, ok) == SuspendedMachines(old(machines), faults, 0)
    {
      for i := 0 to |machines|
        invariant |machines| == |old(machines)|
        invariant SuspendedMachines(machines, faults, i) == SuspendedMachines(old(machines), faults, 0)
      {
        if machines[i] == Running {
          if i in faults {
            machines := machines[i := faults[i]];
            return false;
          }
          machines := machines[i := Suspended];
        }
      }
      ok := true;
    }

    /** Close; failures are only logged. */
    method Close()
      modifies this`machines
      ensures machines == []
    {
      machines := [];
    }

    method Reset(offered: seq<nat>, fail: nat, faults: Faults) returns (ok: bool)
      requires Addressed(config, Contents()) && |offered| == |config.containers|
      modifies this
      ensures Contents() == AfterReset(config, old(Contents()), offered, fail, faults)
      ensures ok <==> Resets(config, fail, faults)
      ensures Addressed(config, Contents())
    {
      Close();
      ok := Create(offered, fail);
      if !ok { return; }
      ok := Start(faults);
    }
  }

  function AfterReset(c: Config, d: Data, offered: seq<nat>, fail: nat, faults: Faults): Data
    requires Addressed(c, d) && |offered| == |c.containers|
  {
    var made := Created(c, d.(machines := []), offered, fail);
    made.(machines := StartedMachines(made.machines, faults))
  }

  predicate Resets(c: Config, fail: nat, faults: Faults) {
    Creates(c, fail) && forall i: nat :: i < c.Units() ==> i !in faults
  }

  // ----- Laws -----

  /** One reset: what the network would assign, where creation fails, which machines fail to start. */
  datatype Attempt = Attempt(offered: seq<nat>, fail: nat, faults: Faults)

  ghost predicate Fits(c: Config, attempts: seq<Attempt>) {
    forall i :: 0 <= i < |attempts| ==> |attempts[i].offered| == |c.containers|
  }

  function AfterResets(c: Config, d: Data, attempts: seq<Attempt>): (r: Data)
    requires Addressed(c, d) && Fits(c, attempts)
    ensures Addressed(c, r)
  {
    if attempts == [] then d
    else
      var a := attempts[|attempts| - 1];
      AfterReset(c, AfterResets(c, d, attempts[..|attempts| - 1]), a.offered, a.fail, a.faults)
  }

  /** The number of records of the first `n` containers. */
  function RecordsBefore(c: Config, n: nat): nat
    requires n <= |c.containers|
  {
    if n == 0 then 0 else RecordsBefore(c, n - 1) + |c.containers[n - 1].records|
  }

  lemma {:induction false} RecordAt(c: Config, ips: seq<nat>, n: nat, j: nat, k: nat)
    requires n <= |c.containers| && n <= |ips| && j < n && k < |c.containers[j].records|
    ensures |RecordsOf(c, ips, n)| == RecordsBefore(c, n) && RecordsBefore(c, j) + k < RecordsBefore(c, n)
    ensures RecordsOf(c, ips, n)[RecordsBefore(c, j) + k]
            == Filled(c.containers[j].records[k], FormatIP(c.subnet, ips[j]))
  {
    RecordCount(c, ips, n - 1);
    if j < n - 1 { RecordAt(c, ips, n - 1, j, k); }
  }

  lemma {:induction false} RecordCount(c: Config, ips: seq<nat>, n: nat)
    requires n <= |c.containers| && n <= |ips|
    ensures |RecordsOf(c, ips, n)| == RecordsBefore(c, n)
  {
    if n > 0 { RecordCount(c, ips, n - 1); }
  }

  /** How many containers Create connects: none of a static exercise, and no more than before the failure. */
  function Connected(c: Config, fail: nat): (n: nat)
    ensures n <= |c.containers|
  {
    if c.isStatic then 0 else if fail < |c.containers| then fail else |c.containers|
  }

  /** Create adds the records of the connected containers, in order, whether it succeeds or not: each keeps its name,
      its type and the data it comes with, and one without data gets the address of its container, made of the subnet
      and the last part kept from before or, if there is none, handed out. */
  lemma CreateWrites(c: Config, d: Data, offered: seq<nat>, fail: nat, j: nat, k: nat)
    requires Addressed(c, d) && |offered| == |c.containers| && j < Connected(c, fail)
    requires k < |c.containers[j].records|
    ensures var d' := Created(c, d, offered, fail);
      var r := c.containers[j].records[k];
      var ip := if d.ips.Some? then d.ips.value[j] else offered[j];
      && d.dnsRecords <= d'.dnsRecords
      && |d'.dnsRecords| == |d.dnsRecords| + RecordsBefore(c, Connected(c, fail))
      && RecordsBefore(c, j) + k < RecordsBefore(c, Connected(c, fail))
      && d'.dnsRecords[|d.dnsRecords| + RecordsBefore(c, j) + k]
         == Record(r.name, r.kind, if r.rdata == [] then c.subnet + [46] + Itoa(ip) else r.rdata)
  {
    RecordAt(c, AddressesFor(d, offered), Connected(c, fail), j, k);
  }

  /** Create succeeds exactly if no unit fails and the exercise is not static with containers.  Then all machines are
      stopped, and the addresses are those kept or else, if there are containers, those handed out; otherwise machines
      and addresses are as before. */
  lemma CreateSucceedsIff(c: Config, d: Data, offered: seq<nat>, fail: nat)
    requires Addressed(c, d) && |offered| == |c.containers|
    ensures var d' := Created(c, d, offered, fail);
      if fail >= |c.containers| + c.vms && !(c.isStatic && c.containers != []) then
        && Creates(c, fail) && |d'.machines| == |c.containers| + c.vms
        && (forall i :: 0 <= i < |d'.machines| ==> d'.machines[i] == Stopped)
        && d'.ips == if d.ips.Some? then d.ips else if c.containers == [] then None else Some(offered)
      else !Creates(c, fail) && d'.machines == d.machines && d'.ips == d.ips
  {
  }

  // ----- Suspending -----

  /** Suspending succeeds exactly if no running machine fails. */
  lemma {:induction false} SuspendSucceedsIff(ms: seq<Machine>, faults: Faults, from: nat)
    requires from <= |ms|
    ensures var (out, ok) := SuspendedMachines(ms, faults, from);
      ok <==> forall i :: from <= i < |ms| && ms[i] == Running ==> i !in faults
    decreases |ms| - from
  {
    if from < |ms| {
      if ms[from] != Running {
        SuspendSucceedsIff(ms, faults, from + 1);
      } else if from !in faults {
        SuspendSucceedsIff(ms[from := Suspended], faults, from + 1);
      }
    }
  }

  /** Machine `i` is the first that fails to be suspended. */
  predicate FirstFault(ms: seq<Machine>, faults: Faults, i: nat) {
    i < |ms| && ms[i] == Running && i in faults && forall j :: 0 <= j < i && ms[j] == Running ==> j !in faults
  }

  /** Then the running machines before it are suspended, it is left as it failed, and those after it are as they
      were. */
  lemma {:induction false} FailingSuspendLeaves(ms: seq<Machine>, faults: Faults, from: nat, i: nat)
    requires from <= i && FirstFault(ms, faults, i)
    ensures var out := SuspendedMachines(ms, faults, from).0;
      forall k :: 0 <= k < |ms| ==>
        out[k] == if k == i then faults[i] else if from <= k < i && ms[k] == Running then Suspended else ms[k]
    decreases |ms| - from
  {
    if from < i {
      if ms[from] != Running {
        FailingSuspendLeaves(ms, faults, from + 1, i);
      } else {
        FailingSuspendLeaves(ms[from := Suspended], faults, from + 1, i);
      }
    }
  }

  function Copies(rs: seq<Record>, k: nat): seq<Record> { if k == 0 then [] else Copies(rs, k - 1) + rs }

  /** After its first creation an exercise never changes its addresses, whether its resets succeed or not. */
  lemma {:induction false} AddressesNeverChange(c: Config, d: Data, attempts: seq<Attempt>)
    requires Addressed(c, d) && Fits(c, attempts) && (d.ips.Some? || c.containers == [])
    ensures AfterResets(c, d, attempts).ips == d.ips
  {
    if attempts != [] { AddressesNeverChange(c, d, attempts[..|attempts| - 1]); }
  }

  /** `k` successful resets after a first creation: the same addresses, k + 1 copies of the first DNS records, and
      every machine running. */
  lemma {:induction false} ResetsRepeatRecords(c: Config, offered: seq<nat>, attempts: seq<Attempt>)
    requires |offered| == |c.containers| && Fits(c, attempts) && Creates(c, c.Units())
    requires forall i :: 0 <= i < |attempts| ==> Resets(c, attempts[i].fail, attempts[i].faults)
    ensures var first := Created(c, Data(None, [], []), offered, c.Units());
      var last := AfterResets(c, first, attempts);
      && last.ips == first.ips
      && last.dnsRecords == Copies(first.dnsRecords, |attempts| + 1)
      && |last.machines| == c.Units()
      && (attempts != [] ==> forall i :: 0 <= i < c.Units() ==> last.machines[i] == Running)
  {
    var first := Created(c, Data(None, [], []), offered, c.Units());
    if attempts == [] {
      assert Copies(first.dnsRecords, 1) == Copies(first.dnsRecords, 0) + first.dnsRecords;
    } else {
      var most, a := attempts[..|attempts| - 1], attempts[|attempts| - 1];
      ResetsRepeatRecords(c, offered, most);
      var before := AfterResets(c, first, most);
      assert AfterResets(c, first, attempts) == AfterReset(c, before, a.offered, a.fail, a.faults);
      hide AfterResets, Copies;
      ResetAddsRecords(c, before, a, offered);
      assert Copies(first.dnsRecords, |attempts| + 1) == Copies(first.dnsRecords, |attempts|) + first.dnsRecords
      by { CopiesStep(first.dnsRecords, |attempts|); }
    }
  }

  lemma CopiesStep(rs: seq<Record>, k: nat)
    ensures Copies(rs, k + 1) == Copies(rs, k) + rs
  {
  }

  lemma ResetAddsRecords(c: Config, d: Data, a: Attempt, first: seq<nat>)
    requires Addressed(c, d) && |a.offered| == |c.containers| == |first| && Resets(c, a.fail, a.faults)
    requires d.ips == if |c.containers| > 0 then Some(first) else None
    ensures var r := AfterReset(c, d, a.offered, a.fail, a.faults);
      && r.dnsRecords == d.dnsRecords + Created(c, Data(None, [], []), first, c.Units()).dnsRecords
      && |r.machines| == c.Units() && forall i :: 0 <= i < c.Units() ==> r.machines[i] == Running
  {
    if |c.containers| == 0 { assert a.offered == [] && first == []; }
  }

  /** Whatever resets are tried, and wherever they fail, every DNS record is one of the first creation: records
      pile up, but none of them ever names another address. */
  lemma {:induction false} ResetsAddOnlyFirstRecords(c: Config, offered: seq<nat>, attempts: seq<Attempt>)
    requires |offered| == |c.containers| && Fits(c, attempts) && Creates(c, c.Units())
    ensures var first := Created(c, Data(None, [], []), offered, c.Units());
      var last := AfterResets(c, first, attempts);
      && last.ips == first.ips
      && first.dnsRecords <= last.dnsRecords
      && forall r :: r in last.dnsRecords ==> r in first.dnsRecords
  {
    var first := Created(c, Data(None, [], []), offered, c.Units());
    if attempts != [] {
      var most, a := attempts[..|attempts| - 1], attempts[|attempts| - 1];
      ResetsAddOnlyFirstRecords(c, offered, most);
      var before := AfterResets(c, first, most);
      assert AfterResets(c, first, attempts) == AfterReset(c, before, a.offered, a.fail, a.faults);
      hide AfterResets;
      var at := FailsAt(c, a.fail);
      var k := if at < |c.containers| then at else |c.containers|;
      if |c.containers| == 0 { assert a.offered == [] && offered == []; }
      assert first.dnsRecords == RecordsOf(c, offered, |c.containers|);
      RecordsOfPrefix(c, offered, k);
    }
  }

  lemma {:induction false} RecordsOfPrefix(c: Config, ips: seq<nat>, k: nat)
    requires k <= |c.containers| == |ips|
    ensures RecordsOf(c, ips, k) <= RecordsOf(c, ips, |c.containers|)
    decreases |c.containers| - k
  {
    if k < |c.containers| {
      RecordsOfPrefix(c, ips, k + 1);
      assert RecordsOf(c, ips, k) <= RecordsOf(c, ips, k + 1);
    }
  }
}
