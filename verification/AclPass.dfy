// The cluster pass over the access-control list of the control-plane frontend,
// with machine reconcilers editing their own entries in between.
module AclPass {
  import opened Wrappers
  import opened Api
  import opened Scope
  import opened AccessControl
  import SecurityRules

  /** A Go *string. The SDK's subnet lists are slices of these, so comparing two
      slices compares addresses and not texts. */
  class StringRef {
    const text: string

    constructor (text: string)
      ensures this.text == text
    {
      this.text := text;
    }
  }

  function Texts(refs: seq<StringRef>): seq<string> {
    seq(|refs|, i requires 0 <= i < |refs| => refs[i].text)
  }

  /** scw.StringSlicePtr: a new address for every element. */
  method StringSlicePtr(texts: seq<string>) returns (refs: seq<StringRef>)
    ensures Texts(refs) == texts
    ensures forall i | 0 <= i < |refs| :: fresh(refs[i])
  {
    refs := [];
    for i := 0 to |texts|
      invariant |refs| == i
      invariant forall j | 0 <= j < i :: refs[j].text == texts[j] && fresh(refs[j])
    {
      var ref := new StringRef(texts[i]);
      refs := refs + [ref];
    }
  }

  datatype Found = Found(id: nat, subnets: seq<StringRef>)

  // ---- Relations between list states ----

  /** The entries of one name are the same in both states. */
  ghost predicate Kept(a: Acls, b: Acls, name: string) {
    && (forall id | id in a && a[id].name == name :: id in b && b[id] == a[id])
    && (forall id | id in b && b[id].name == name :: id in a && a[id] == b[id])
  }

  /** Only machine entries differ. */
  ghost predicate MachinesOnly(a: Acls, b: Acls) {
    && ListInvariant(b)
    && forall name | IsFixedAclName(name) :: Kept(a, b, name)
  }

  ghost predicate Extends(before: seq<Acls>, after: seq<Acls>) {
    before <= after
  }

  /** The entry of a name: absent, or with the given subnets. */
  ghost predicate EntryIs(state: Acls, name: string, subnets: Option<seq<string>>) {
    if subnets.None? then !Has(state, name) else HasWith(state, name, subnets.value)
  }

  /** A state met while one fixed entry is being changed: the other two are
      kept, and the changed one is still as before or already as wanted. */
  ghost predicate OnTheWay(before: Acls, state: Acls, name: string, wanted: Option<seq<string>>) {
    && ListInvariant(state)
    && (forall other | IsFixedAclName(other) && other != name :: Kept(before, state, other))
    && (Kept(before, state, name) || EntryIs(state, name, wanted))
  }

  lemma MachinesOnlyIsReflexive(a: Acls)
    requires ListInvariant(a)
    ensures MachinesOnly(a, a)
  {
  }

  lemma MachinesOnlyIsTransitive(a: Acls, b: Acls, c: Acls)
    requires MachinesOnly(a, b) && MachinesOnly(b, c)
    ensures MachinesOnly(a, c)
  {
    hide IsFixedAclName, ListInvariant;
    forall name | IsFixedAclName(name) ensures Kept(a, c, name) {
      assert Kept(a, b, name) && Kept(b, c, name);
    }
  }

  /** Putting an entry where its name was free or already its own. */
  lemma PuttingAnEntry(a: Acls, id: nat, acl: Acl, b: Acls)
    requires ListInvariant(a) && Expected(acl) && b == a[id := acl]
    requires if id in a then a[id].name == acl.name else !Has(a, acl.name)
    ensures ListInvariant(b)
    ensures EntryIs(b, acl.name, Some(acl.subnets))
    ensures forall other | other != acl.name :: Kept(a, b, other)
  {
    hide Expected;
    assert b[id] == acl;
  }

  lemma DroppingAnEntry(a: Acls, id: nat)
    requires ListInvariant(a) && id in a
    ensures ListInvariant(a - {id})
    ensures EntryIs(a - {id}, a[id].name, None)
    ensures forall other | other != a[id].name :: Kept(a, a - {id}, other)
  {
    hide Expected;
  }

  /** A write of one fixed entry, after machine steps. */
  lemma WrittenIsOnTheWay(before: Acls, turn: Acls, after: Acls, name: string, wanted: Option<seq<string>>)
    requires IsFixedAclName(name) && MachinesOnly(before, turn) && ListInvariant(after)
    requires forall other | other != name :: Kept(turn, after, other)
    requires after == turn || EntryIs(after, name, wanted)
    ensures OnTheWay(before, after, name, wanted)
  {
    hide IsFixedAclName, ListInvariant, EntryIs;
    forall other | IsFixedAclName(other) && other != name ensures Kept(before, after, other) {
      assert Kept(before, turn, other) && Kept(turn, after, other);
    }
    assert Kept(before, turn, name);
  }

  lemma MachinesOnlyIsOnTheWay(before: Acls, name: string, wanted: Option<seq<string>>)
    requires IsFixedAclName(name)
    ensures forall state | MachinesOnly(before, state) :: OnTheWay(before, state, name, wanted)
  {
    hide IsFixedAclName, ListInvariant, EntryIs;
  }

  /** Creating or updating a fixed entry, with machine steps before. */
  lemma PuttingAnEntryAfter(before: Acls, turn: Acls, id: nat, acl: Acl)
    requires IsFixedAclName(acl.name) && Expected(acl)
    requires ListInvariant(before) && MachinesOnly(before, turn)
    requires if id in before then before[id].name == acl.name else id !in turn && !Has(before, acl.name)
    ensures ListInvariant(turn[id := acl])
    ensures OnTheWay(before, turn[id := acl], acl.name, Some(acl.subnets))
              && OnTheWay(before, turn, acl.name, Some(acl.subnets))
    ensures EntryIs(turn[id := acl], acl.name, Some(acl.subnets))
  {
    hide Expected, IsFixedAclName, EntryIs;
    assert Kept(before, turn, acl.name);
    PuttingAnEntry(turn, id, acl, turn[id := acl]);
    WrittenIsOnTheWay(before, turn, turn[id := acl], acl.name, Some(acl.subnets));
    MachinesOnlyIsOnTheWay(before, acl.name, Some(acl.subnets));
  }

  lemma DroppingAnEntryAfter(before: Acls, turn: Acls, id: nat, name: string)
    requires IsFixedAclName(name) && id in before && before[id].name == name
    requires ListInvariant(before) && MachinesOnly(before, turn)
    ensures ListInvariant(turn - {id})
    ensures OnTheWay(before, turn - {id}, name, None) && OnTheWay(before, turn, name, None)
    ensures EntryIs(turn - {id}, name, None)
  {
    hide Expected, IsFixedAclName, EntryIs;
    assert Kept(before, turn, name);
    DroppingAnEntry(turn, id);
    WrittenIsOnTheWay(before, turn, turn - {id}, name, None);
    MachinesOnlyIsOnTheWay(before, name, None);
  }

  lemma MachineEntryIsExpected(machine: string, address: string)
    ensures Expected(Acl(MachineName(machine), Allow, 3, [address]))
    ensures !IsFixedAclName(MachineName(machine))
  {
    MachineNamesAreTheirOwn(machine, machine);
    assert "caps-" <= MachineName(machine);
  }

  class AclList {
    var acls: Acls
    var nextId: nat
    // Write requests sent, and requests that did not succeed.
    ghost var issued: nat
    ghost var failures: nat
    // Every state the list has been in.
    ghost var log: seq<Acls>

    ghost predicate Valid()
      reads this
    {
      && (forall id | id in acls :: id < nextId)
      && ListInvariant(acls)
      && |log| > 0 && log[|log| - 1] == acls
      && forall i | 0 <= i < |log| :: ListInvariant(log[i])
    }

    ghost predicate OnlyMachinesSince(n: nat, before: Acls)
      reads this
    {
      forall i | n <= i < |log| :: MachinesOnly(before, log[i])
    }

    /** Of the states since then only the last may differ in a fixed entry. */
    ghost predicate OnlyMachinesBeforeTheLast(n: nat, before: Acls)
      reads this
    {
      forall i | n <= i < |log| - 1 :: MachinesOnly(before, log[i])
    }

    ghost predicate OnTheWaySince(n: nat, before: Acls, name: string, wanted: Option<seq<string>>)
      reads this
    {
      forall i | n <= i < |log| :: OnTheWay(before, log[i], name, wanted)
    }

    /** One write of some machine reconciler to its own entry. */
    method MachineStep(machine: string, address: string, remove: bool)
      requires Valid()
      modifies this`acls, this`nextId, this`log
      ensures Valid() && log == old(log) + [acls] && nextId >= old(nextId)
      ensures MachinesOnly(old(acls), acls)
    {
      var entry := Acl(MachineName(machine), Allow, 3, [address]);
      MachineEntryIsExpected(machine, address);
      MachinesOnlyIsReflexive(acls);
      hide Expected, IsFixedAclName, MachineName, ListInvariant, Kept;
      if id :| id in acls && acls[id].name == entry.name {
        if remove {
          DroppingAnEntry(acls, id);
          acls := acls - {id};
        } else {
          PuttingAnEntry(acls, id, entry, acls[id := entry]);
          acls := acls[id := entry];
        }
      } else if !remove {
        PuttingAnEntry(acls, nextId, entry, acls[nextId := entry]);
        acls, nextId := acls[nextId := entry], nextId + 1;
      }
      log := log + [acls];
    }

    /** Machine reconcilers create, update and delete their own entries. */
    method Interfere()
      requires Valid()
      modifies this`acls, this`nextId, this`log
      ensures Valid() && Extends(old(log), log) && nextId >= old(nextId)
      ensures MachinesOnly(old(acls), acls)
      ensures OnlyMachinesSince(|old(log)|, old(acls))
    {
      hide MachinesOnly, ListInvariant;
      MachinesOnlyIsReflexive(acls);
      var steps: nat :| true;
      for i := 0 to steps
        invariant Valid() && Extends(old(log), log) && nextId >= old(nextId)
        invariant MachinesOnly(old(acls), acls)
        invariant OnlyMachinesSince(|old(log)|, old(acls))
      {
        var machine: string, address: string, remove: bool := *, *, *;
        ghost var turn := acls;
        MachineStep(machine, address, remove);
        MachinesOnlyIsTransitive(old(acls), turn, acls);
      }
    }

    /** FindLoadBalancerACLByName: the first entry of the name, decoded into new strings. */
    method FindByName(name: string) returns (r: Result<Option<Found>, RequestFailure>)
      requires Valid() && IsFixedAclName(name)
      modifies this`acls, this`nextId, this`log, this`failures
      ensures Valid() && Extends(old(log), log) && nextId >= old(nextId)
      ensures failures == old(failures) + (if r.Ok? then 0 else 1)
      ensures MachinesOnly(old(acls), acls)
      ensures OnlyMachinesSince(|old(log)|, old(acls))
      ensures r.Ok? && r.value.Some? ==>
                && r.value.value.id in acls && acls[r.value.value.id].name == name
                && Texts(r.value.value.subnets) == acls[r.value.value.id].subnets
      ensures r.Ok? && r.value.None? ==> !Has(acls, name)
    {
      Interfere();
      var reply: Outcome := *;
      if reply != Success {
        failures := failures + 1;
        return Err(RequestFailed);
      }
      var todo := acls.Keys;
      while todo != {}
        invariant todo <= acls.Keys
        invariant forall id | id in acls && id !in todo :: acls[id].name != name
        decreases todo
      {
        var id :| id in todo;
        if acls[id].name == name {
          var subnets := StringSlicePtr(acls[id].subnets);
          return Ok(Some(Found(id, subnets)));
        }
        todo := todo - {id};
      }
      r := Ok(None);
    }

    method Create(acl: Acl) returns (r: Result<(), RequestFailure>)
      requires Valid() && IsFixedAclName(acl.name) && Expected(acl) && !Has(acls, acl.name)
      modifies this
      ensures Valid() && Extends(old(log), log) && |log| > |old(log)| && issued == old(issued) + 1
      ensures failures == old(failures) + (if r.Ok? then 0 else 1)
      ensures OnTheWaySince(|old(log)|, old(acls), acl.name, Some(acl.subnets))
      ensures OnTheWay(old(acls), acls, acl.name, Some(acl.subnets))
      ensures OnlyMachinesBeforeTheLast(|old(log)|, old(acls))
      ensures r.Ok? ==> EntryIs(acls, acl.name, Some(acl.subnets))
    {
      hide Expected, IsFixedAclName, ListInvariant, MachinesOnly, OnTheWay, EntryIs, Kept;
      ghost var before := acls;
      Interfere();
      ghost var turn := acls;
      MachinesOnlyIsOnTheWay(before, acl.name, Some(acl.subnets));
      PuttingAnEntryAfter(before, turn, nextId, acl);
      var outcome: Outcome := *;
      issued := issued + 1;
      if outcome != Success {
        failures := failures + 1;
      }
      if outcome != NoEffect {
        acls, nextId := acls[nextId := acl], nextId + 1;
      }
      log := log + [acls];
      r := if outcome == Success then Ok(()) else Err(RequestFailed);
    }

    method Update(id: nat, acl: Acl) returns (r: Result<(), RequestFailure>)
      requires Valid() && IsFixedAclName(acl.name) && Expected(acl) && id in acls && acls[id].name == acl.name
      modifies this
      ensures Valid() && Extends(old(log), log) && |log| > |old(log)| && issued == old(issued) + 1
      ensures failures == old(failures) + (if r.Ok? then 0 else 1)
      ensures OnTheWaySince(|old(log)|, old(acls), acl.name, Some(acl.subnets))
      ensures OnTheWay(old(acls), acls, acl.name, Some(acl.subnets))
      ensures OnlyMachinesBeforeTheLast(|old(log)|, old(acls))
      ensures r.Ok? ==> EntryIs(acls, acl.name, Some(acl.subnets))
    {
      hide Expected, IsFixedAclName, ListInvariant, MachinesOnly, OnTheWay, EntryIs, Kept;
      ghost var before := acls;
      Interfere();
      ghost var turn := acls;
      MachinesOnlyIsOnTheWay(before, acl.name, Some(acl.subnets));
      PuttingAnEntryAfter(before, turn, id, acl);
      var outcome: Outcome := *;
      issued := issued + 1;
      if outcome != Success {
        failures := failures + 1;
      }
      if outcome != NoEffect {
        acls := acls[id := acl];
      }
      log := log + [acls];
      r := if outcome == Success then Ok(()) else Err(RequestFailed);
    }

    method Delete(id: nat, ghost name: string) returns (r: Result<(), RequestFailure>)
      requires Valid() && IsFixedAclName(name) && id in acls && acls[id].name == name
      modifies this
      ensures Valid() && Extends(old(log), log) && |log| > |old(log)| && issued == old(issued) + 1
      ensures failures == old(failures) + (if r.Ok? then 0 else 1)
      ensures OnTheWaySince(|old(log)|, old(acls), name, None)
      ensures OnTheWay(old(acls), acls, name, None)
      ensures OnlyMachinesBeforeTheLast(|old(log)|, old(acls))
      ensures r.Ok? ==> EntryIs(acls, name, None)
    {
      hide Expected, IsFixedAclName, ListInvariant, MachinesOnly, OnTheWay, EntryIs, Kept;
      ghost var before := acls;
      Interfere();
      ghost var turn := acls;
      MachinesOnlyIsOnTheWay(before, name, None);
      DroppingAnEntryAfter(before, turn, id, name);
      var outcome: Outcome := *;
      issued := issued + 1;
      if outcome != Success {
        failures := failures + 1;
      }
      if outcome != NoEffect {
        acls := acls - {id};
      }
      log := log + [acls];
      r := if outcome == Success then Ok(()) else Err(RequestFailed);
    }
  }

  // ---- The pass ----

  function Wanted(subnets: seq<string>): Option<seq<string>> {
    if subnets == [] then None else Some(subnets)
  }

  lemma OnTheWayAfterMachines(a: Acls, b: Acls, c: Acls, name: string, wanted: Option<seq<string>>)
    requires IsFixedAclName(name) && MachinesOnly(a, b) && OnTheWay(b, c, name, wanted)
    ensures OnTheWay(a, c, name, wanted)
  {
    hide IsFixedAclName, ListInvariant, EntryIs;
    forall other | IsFixedAclName(other) && other != name ensures Kept(a, c, other) {
      assert Kept(a, b, other) && Kept(b, c, other);
    }
    assert Kept(a, b, name);
  }

  /** States of a write that followed a lookup. */
  lemma LookupThenWrite(list: AclList, n: nat, m: nat, before: Acls, turn: Acls, name: string,
      wanted: Option<seq<string>>)
    requires IsFixedAclName(name) && n <= m <= |list.log|
    requires forall i | n <= i < m :: MachinesOnly(before, list.log[i])
    requires MachinesOnly(before, turn) && list.OnTheWaySince(m, turn, name, wanted)
              && list.OnlyMachinesBeforeTheLast(m, turn)
    ensures list.OnTheWaySince(n, before, name, wanted) && list.OnlyMachinesBeforeTheLast(n, before)
  {
    hide MachinesOnly, OnTheWay;
    forall i | m <= i < |list.log| - 1 ensures MachinesOnly(before, list.log[i]) {
      MachinesOnlyIsTransitive(before, turn, list.log[i]);
    }
    MachinesOnlyIsOnTheWay(before, name, wanted);
    forall i | m <= i < |list.log| ensures OnTheWay(before, list.log[i], name, wanted) {
      OnTheWayAfterMachines(before, turn, list.log[i], name, wanted);
    }
  }

  /** ensureACL: the entry of a fixed name becomes what is wanted, or is removed
      when nothing is listed. Since the comparison is between addresses of
      strings and the wanted ones are new, an existing entry with a non-empty
      list is rewritten every time, action and index included. */
  method EnsureACL(list: AclList, name: string, ips: seq<string>, deny: bool, index: int)
      returns (r: Result<(), RequestFailure>)
    requires list.Valid() && IsFixedAclName(name)
    requires ips != [] ==> Expected(Acl(name, if deny then Deny else Allow, index, ips))
    modifies list
    ensures list.Valid() && Extends(old(list.log), list.log)
    ensures list.OnTheWaySince(|old(list.log)|, old(list.acls), name, Wanted(ips))
    ensures list.OnlyMachinesBeforeTheLast(|old(list.log)|, old(list.acls))
    ensures OnTheWay(old(list.acls), list.acls, name, Wanted(ips))
    ensures r.Ok? ==> EntryIs(list.acls, name, Wanted(ips))
    ensures list.issued >= old(list.issued)
    ensures r.Ok? ==> (list.issued == old(list.issued) <==> ips == [] && !Has(old(list.acls), name))
    ensures list.failures >= old(list.failures) + (if r.Ok? then 0 else 1)
  {
    hide Expected, IsFixedAclName, ListInvariant, MachinesOnly, OnTheWay, EntryIs, Kept;
    ghost var before := list.acls;
    ghost var n := |list.log|;
    var acl := list.FindByName(name);
    MachinesOnlyIsOnTheWay(before, name, Wanted(ips));
    ghost var turn := list.acls;
    ghost var m := |list.log|;
    MachinesLeaveTheName(before, turn, name);
    if acl.Err? {
      return Err(acl.error);
    }
    if |ips| == 0 {
      if acl.value.Some? {
        r := list.Delete(acl.value.value.id, name);
        LookupThenWrite(list, n, m, before, turn, name, None);
        OnTheWayAfterMachines(before, turn, list.acls, name, None);
      } else {
        assert EntryIs(turn, name, None) by { NothingOfTheName(turn, name); }
        r := Ok(());
      }
      return;
    }
    var entry := Acl(name, if deny then Deny else Allow, index, ips);
    if acl.value.None? {
      r := list.Create(entry);
    } else {
      var found := acl.value.value;
      var wanted := StringSlicePtr(ips);
      assert |found.subnets| > 0 ==> wanted[0] != found.subnets[0];
      if wanted != found.subnets {
        r := list.Update(found.id, entry);
      } else {
        r := Ok(());
      }
    }
    LookupThenWrite(list, n, m, before, turn, name, Some(ips));
    OnTheWayAfterMachines(before, turn, list.acls, name, Some(ips));
  }

  lemma MachinesLeaveTheName(before: Acls, turn: Acls, name: string)
    requires IsFixedAclName(name) && MachinesOnly(before, turn)
    ensures Has(before, name) <==> Has(turn, name)
  {
    hide IsFixedAclName, ListInvariant;
    assert Kept(before, turn, name);
  }

  lemma NothingOfTheName(state: Acls, name: string)
    requires !Has(state, name)
    ensures EntryIs(state, name, None)
  {
  }

  datatype Gateway = Gateway(id: string, ip: Option<string>)

  /** The addresses of the gateways that have one, in listing order. */
  function GatewayAddresses(gateways: seq<Gateway>): seq<string> {
    if gateways == [] then []
    else (if gateways[0].ip.Some? then [gateways[0].ip.value] else []) + GatewayAddresses(gateways[1..])
  }

  lemma {:induction false} GatewayAddressesConcat(a: seq<Gateway>, b: seq<Gateway>)
    ensures GatewayAddresses(a + b) == GatewayAddresses(a) + GatewayAddresses(b)
  {
    if a == [] {
      assert a + b == b;
    } else {
      assert (a + b)[1..] == a[1..] + b && (a + b)[0] == a[0];
      GatewayAddressesConcat(a[1..], b);
      var first := if a[0].ip.Some? then [a[0].ip.value] else [];
      var rest, other := GatewayAddresses(a[1..]), GatewayAddresses(b);
      assert first + (rest + other) == first + rest + other;
    }
  }

  /** They are the addresses the gateways have, and nothing else of them. */
  lemma {:induction false} GatewayAddressesAre(gateways: seq<Gateway>, a: string)
    ensures a in GatewayAddresses(gateways) <==> exists g | g in gateways :: g.ip == Some(a)
  {
    if gateways != [] {
      GatewayAddressesAre(gateways[1..], a);
      assert gateways == [gateways[0]] + gateways[1..];
    }
  }

  method CollectGatewayAddresses(gateways: seq<Gateway>) returns (ips: seq<string>)
    ensures ips == GatewayAddresses(gateways)
    ensures forall a :: a in ips <==> exists g | g in gateways :: g.ip == Some(a)
  {
    forall a ensures a in GatewayAddresses(gateways) <==> exists g | g in gateways :: g.ip == Some(a) {
      GatewayAddressesAre(gateways, a);
    }
    ips := [];
    for i := 0 to |gateways|
      invariant ips == GatewayAddresses(gateways[..i])
    {
      if gateways[i].ip.Some? {
        ips := ips + [gateways[i].ip.value];
      }
      assert gateways[..i + 1] == gateways[..i] + [gateways[i]];
      GatewayAddressesConcat(gateways[..i], [gateways[i]]);
    }
    assert gateways[..|gateways|] == gateways;
  }

  /** While another entry is being changed, this one stays as it is. */
  lemma OthersStay(before: Acls, state: Acls, name: string, wanted: Option<seq<string>>, other: string,
      entry: Option<seq<string>>)
    requires OnTheWay(before, state, name, wanted) && IsFixedAclName(other) && other != name
    requires EntryIs(before, other, entry)
    ensures EntryIs(state, other, entry)
  {
    assert Kept(before, state, other);
  }

  lemma StepKeeps(list: AclList, n: nat, before: Acls, name: string, wanted: Option<seq<string>>, other: string,
      entry: Option<seq<string>>)
    requires n <= |list.log| && IsFixedAclName(other) && other != name
    requires list.OnTheWaySince(n, before, name, wanted) && OnTheWay(before, list.acls, name, wanted)
    requires EntryIs(before, other, entry)
    ensures forall i | n <= i < |list.log| :: EntryIs(list.log[i], other, entry)
    ensures EntryIs(list.acls, other, entry)
  {
    hide OnTheWay, EntryIs;
    OthersStay(before, list.acls, name, wanted, other, entry);
    forall i | n <= i < |list.log| ensures EntryIs(list.log[i], other, entry) {
      OthersStay(before, list.log[i], name, wanted, other, entry);
    }
  }

  /** A state on the way to the new ranges entry, or any with it in place. */
  ghost predicate OldOrWritten(before: Acls, state: Acls, ranges: seq<string>) {
    OnTheWay(before, state, ALLOWED_RANGES, Some(ranges)) || EntryIs(state, ALLOWED_RANGES, Some(ranges))
  }

  /** Once the ranges entry is written, also with a lost reply, it stays. */
  ghost predicate StaysOnceWritten(log: seq<Acls>, n: nat, ranges: seq<string>) {
    forall i, j | n <= i <= j < |log| && EntryIs(log[i], ALLOWED_RANGES, Some(ranges)) ::
        EntryIs(log[j], ALLOWED_RANGES, Some(ranges))
  }

  /** Nothing is wanted in the list and nothing is there to be taken off. */
  ghost predicate NothingToSend(acls: Acls, ranges: seq<string>,
                                attached: Option<Result<seq<Gateway>, RequestFailure>>) {
    && ranges == [] && !Has(acls, ALLOWED_RANGES) && !Has(acls, DENY_ALL)
    && (attached.Some? && attached.value.Ok? ==>
        GatewayAddresses(attached.value.value) == [] && !Has(acls, PUBLIC_GATEWAY))
  }

  lemma WrittenStays(list: AclList, n: nat, before: Acls, ranges: seq<string>)
    requires list.Valid() && n <= |list.log|
    requires list.OnTheWaySince(n, before, ALLOWED_RANGES, Some(ranges)) && list.OnlyMachinesBeforeTheLast(n, before)
    ensures StaysOnceWritten(list.log, n, ranges)
  {
    NamesAreApart();
    hide IsMachineAclName, ListInvariant, IsFixedAclName;
    forall i, j | n <= i <= j < |list.log| && EntryIs(list.log[i], ALLOWED_RANGES, Some(ranges))
      ensures EntryIs(list.log[j], ALLOWED_RANGES, Some(ranges))
    {
      if i < j {
        assert MachinesOnly(before, list.log[i]) && OnTheWay(before, list.log[j], ALLOWED_RANGES, Some(ranges));
        KeptOrWritten(before, list.log[i], list.log[j], ranges);
      }
    }
  }

  lemma KeptOrWritten(before: Acls, one: Acls, other: Acls, ranges: seq<string>)
    requires MachinesOnly(before, one) && EntryIs(one, ALLOWED_RANGES, Some(ranges))
    requires OnTheWay(before, other, ALLOWED_RANGES, Some(ranges))
    ensures EntryIs(other, ALLOWED_RANGES, Some(ranges))
  {
    hide ListInvariant;
    assert IsFixedAclName(ALLOWED_RANGES) && Kept(before, one, ALLOWED_RANGES);
  }

  /** The steps of ensureACLs. `attached` is the cloud's answer about the gateways
      on the Private Network, None without one. A pass that succeeds sends no
      write exactly when there is nothing to do: what is wanted is always
      written again. */
  method EnsureEntries(list: AclList, ranges: seq<string>, attached: Option<Result<seq<Gateway>, RequestFailure>>)
      returns (r: Result<(), RequestFailure>)
    requires list.Valid()
    modifies list
    ensures list.Valid() && Extends(old(list.log), list.log) && list.issued >= old(list.issued)
    ensures ranges != [] ==> StaysOnceWritten(list.log, |old(list.log)|, ranges)
    ensures ranges != [] ==> forall i | |old(list.log)| <= i < |list.log| ::
              OldOrWritten(old(list.acls), list.log[i], ranges)
    ensures attached.None? && EntryIs(old(list.acls), PUBLIC_GATEWAY, None) ==>
              forall i | |old(list.log)| <= i < |list.log| :: EntryIs(list.log[i], PUBLIC_GATEWAY, None)
    ensures attached.None? && EntryIs(old(list.acls), PUBLIC_GATEWAY, None) ==> EntryIs(list.acls, PUBLIC_GATEWAY, None)
    ensures r.Ok? ==> (attached.Some? ==> attached.value.Ok?)
    ensures r.Ok? ==> EntryIs(list.acls, ALLOWED_RANGES, Wanted(ranges))
    ensures r.Ok? ==> EntryIs(list.acls, DENY_ALL, if ranges == [] then None else Some(EVERYWHERE))
    ensures r.Ok? && attached.Some? ==>
              EntryIs(list.acls, PUBLIC_GATEWAY, Wanted(GatewayAddresses(attached.value.value)))
    ensures r.Ok? ==> (list.issued == old(list.issued) <==> NothingToSend(old(list.acls), ranges, attached))
    ensures list.failures >= old(list.failures)
    ensures r.Err? && (attached.Some? ==> attached.value.Ok?) ==> list.failures > old(list.failures)
  {
    NamesAreApart();
    hide IsMachineAclName, ListInvariant, OnTheWay, EntryIs, Has, StaysOnceWritten;
    ghost var start, s0 := |list.log|, list.acls;
    ghost var noGateway := attached.None? && EntryIs(s0, PUBLIC_GATEWAY, None);
    var denyAll := if |ranges| > 0 then EVERYWHERE else [];
    var allowed := EnsureACL(list, ALLOWED_RANGES, ranges, false, 1);
    ghost var mark, s1 := |list.log|, list.acls;
    if noGateway { StepKeeps(list, start, s0, ALLOWED_RANGES, Wanted(ranges), PUBLIC_GATEWAY, None); }
    if ranges != [] { WrittenStays(list, start, s0, ranges); }
    if allowed.Err? {
      return Err(allowed.error);
    }
    HasStays(s0, s1, ALLOWED_RANGES, Wanted(ranges));
    ghost var log := list.log;
    r := EnsureGatewayAndDenyAll(list, denyAll, Wanted(ranges), attached, noGateway);
    if ranges != [] { StaysOn(log, list.log, start, ranges); }
  }

  lemma HasStays(before: Acls, state: Acls, name: string, wanted: Option<seq<string>>)
    requires OnTheWay(before, state, name, wanted)
    ensures forall other | IsFixedAclName(other) && other != name :: Has(before, other) <==> Has(state, other)
  {
    hide ListInvariant, IsFixedAclName;
    forall other | IsFixedAclName(other) && other != name ensures Has(before, other) <==> Has(state, other) {
      assert Kept(before, state, other);
    }
  }

  lemma StaysOn(log: seq<Acls>, longer: seq<Acls>, n: nat, ranges: seq<string>)
    requires Extends(log, longer) && n <= |log| && StaysOnceWritten(log, n, ranges)
    requires forall j | |log| <= j < |longer| :: EntryIs(longer[j], ALLOWED_RANGES, Some(ranges))
    ensures StaysOnceWritten(longer, n, ranges)
  {
    hide EntryIs;
    assert forall i | 0 <= i < |log| :: longer[i] == log[i];
  }

  /** The steps of ensureACLs after the ranges: the ranges entry stays as it is. */
  method EnsureGatewayAndDenyAll(list: AclList, denyAll: seq<string>, ghost allowed: Option<seq<string>>,
                                 attached: Option<Result<seq<Gateway>, RequestFailure>>, ghost noGateway: bool)
    returns (r: Result<(), RequestFailure>)
    requires list.Valid() && (denyAll == [] || denyAll == EVERYWHERE)
    requires EntryIs(list.acls, ALLOWED_RANGES, allowed)
    requires noGateway ==> attached.None? && EntryIs(list.acls, PUBLIC_GATEWAY, None)
    modifies list
    ensures list.Valid() && Extends(old(list.log), list.log) && list.issued >= old(list.issued)
    ensures forall i | |old(list.log)| <= i < |list.log| :: EntryIs(list.log[i], ALLOWED_RANGES, allowed)
    ensures EntryIs(list.acls, ALLOWED_RANGES, allowed)
    ensures noGateway ==> EntryIs(list.acls, PUBLIC_GATEWAY, None) && forall i | |old(list.log)| <= i < |list.log| ::
              EntryIs(list.log[i], PUBLIC_GATEWAY, None)
    ensures r.Ok? ==> (attached.Some? ==> attached.value.Ok?)
    ensures r.Ok? && attached.Some? ==>
              EntryIs(list.acls, PUBLIC_GATEWAY, Wanted(GatewayAddresses(attached.value.value)))
    ensures r.Ok? ==> EntryIs(list.acls, DENY_ALL, Wanted(denyAll))
    ensures r.Ok? ==> (list.issued == old(list.issued) <==>
              && denyAll == [] && !Has(old(list.acls), DENY_ALL)
              && (attached.Some? ==>
                  GatewayAddresses(attached.value.value) == [] && !Has(old(list.acls), PUBLIC_GATEWAY)))
    ensures list.failures >= old(list.failures)
    ensures r.Err? && (attached.Some? ==> attached.value.Ok?) ==> list.failures > old(list.failures)
  {
    NamesAreApart();
    hide IsMachineAclName, ListInvariant, OnTheWay, EntryIs, Has;
    ghost var n, s := |list.log|, list.acls;
    if attached.Some? {
      if attached.value.Err? {
        return Err(attached.value.error);
      }
      var ips := CollectGatewayAddresses(attached.value.value);
      var gateway := EnsureACL(list, PUBLIC_GATEWAY, ips, false, 2);
      StepKeeps(list, n, s, PUBLIC_GATEWAY, Wanted(ips), ALLOWED_RANGES, allowed);
      if gateway.Err? {
        return Err(gateway.error);
      }
      HasStays(s, list.acls, PUBLIC_GATEWAY, Wanted(ips));
    }
    r := EnsureDenyAll(list, denyAll, allowed, attached, noGateway);
  }

  /** The last step of ensureACLs: the two allow entries stay as they are. */
  method EnsureDenyAll(list: AclList, denyAll: seq<string>, ghost allowed: Option<seq<string>>,
                       ghost attached: Option<Result<seq<Gateway>, RequestFailure>>, ghost noGateway: bool)
    returns (r: Result<(), RequestFailure>)
    requires list.Valid() && (denyAll == [] || denyAll == EVERYWHERE)
    requires EntryIs(list.acls, ALLOWED_RANGES, allowed)
    requires noGateway ==> EntryIs(list.acls, PUBLIC_GATEWAY, None)
    requires attached.Some? ==>
              attached.value.Ok? && EntryIs(list.acls, PUBLIC_GATEWAY, Wanted(GatewayAddresses(attached.value.value)))
    modifies list
    ensures list.Valid() && Extends(old(list.log), list.log) && list.issued >= old(list.issued)
    ensures EntryIs(list.acls, ALLOWED_RANGES, allowed)
    ensures forall i | |old(list.log)| <= i < |list.log| :: EntryIs(list.log[i], ALLOWED_RANGES, allowed)
    ensures noGateway ==> EntryIs(list.acls, PUBLIC_GATEWAY, None) && forall i | |old(list.log)| <= i < |list.log| ::
              EntryIs(list.log[i], PUBLIC_GATEWAY, None)
    ensures attached.Some? ==> EntryIs(list.acls, PUBLIC_GATEWAY, Wanted(GatewayAddresses(attached.value.value)))
    ensures r.Ok? ==> EntryIs(list.acls, DENY_ALL, Wanted(denyAll))
    ensures r.Ok? ==> (list.issued == old(list.issued) <==> denyAll == [] && !Has(old(list.acls), DENY_ALL))
    ensures list.failures >= old(list.failures) + (if r.Ok? then 0 else 1)
  {
    hide ListInvariant, OnTheWay, EntryIs, Has;
    ghost var n, s := |list.log|, list.acls;
    r := EnsureACL(list, DENY_ALL, denyAll, true, 4);
    StepKeeps(list, n, s, DENY_ALL, Wanted(denyAll), ALLOWED_RANGES, allowed);
    if noGateway { StepKeeps(list, n, s, DENY_ALL, Wanted(denyAll), PUBLIC_GATEWAY, None); }
    if attached.Some? {
      StepKeeps(list, n, s, DENY_ALL, Wanted(denyAll), PUBLIC_GATEWAY, Wanted(GatewayAddresses(attached.value.value)));
    }
  }

  /** The entries of a successful pass are those that mean the declaration. */
  lemma PassLeavesTheDeclaration(acls: Acls, ranges: seq<string>, gateways: Option<seq<string>>)
    requires EntryIs(acls, ALLOWED_RANGES, Wanted(ranges))
    requires EntryIs(acls, DENY_ALL, if ranges == [] then None else Some(EVERYWHERE))
    requires EntryIs(acls, PUBLIC_GATEWAY, if gateways.None? then None else Wanted(gateways.value))
    ensures FixedEntriesAre(acls, ranges, gateways)
  {
  }

  /** The fixed entries of a list, letter by letter. */
  predicate EntriesAre(acls: Acls, ranges: seq<string>, gateways: Option<seq<string>>) {
    && (ranges != [] ==>
          && Acl("allowed-ranges", Allow, 1, ranges) in acls.Values
          && Acl("deny-all", Deny, 4, ["0.0.0.0/0", "::/0"]) in acls.Values)
    && (gateways.Some? && gateways.value != [] ==> Acl("public-gateway", Allow, 2, gateways.value) in acls.Values)
    && (forall id | id in acls ::
          && (acls[id].name == "allowed-ranges" || acls[id].name == "deny-all" ==> ranges != [])
          && (acls[id].name == "public-gateway" ==> gateways.Some? && gateways.value != [])
          && (acls[id].name in {"allowed-ranges", "public-gateway", "deny-all"} || "caps-" <= acls[id].name))
  }

  lemma FixedEntriesMean(acls: Acls, ranges: seq<string>, gateways: Option<seq<string>>)
    requires ListInvariant(acls) && FixedEntriesAre(acls, ranges, gateways)
    ensures EntriesAre(acls, ranges, gateways)
  {
    NamesAreApart();
    assert forall id | id in acls :: acls[id] in acls.Values;
  }

  // ---- The pass and its clients ----

  /** Every state from position n on lets every address of the ranges in. */
  ghost predicate AdmittedFrom(log: seq<Acls>, n: nat, ranges: seq<string>) {
    forall i, a | n <= i < |log| && InSomeRange(ranges, Covers4, a) :: Admits(log[i], a)
  }

  /** What both lists of ranges hold is let in, from position n on. */
  ghost predicate CommonAdmittedFrom(log: seq<Acls>, n: nat, one: seq<string>, other: seq<string>) {
    forall i, a | n <= i < |log| && InSomeRange(one, Covers4, a) && InSomeRange(other, Covers4, a) :: Admits(log[i], a)
  }

  /** From the state on in which the ranges entry is this one, the ranges are let in. */
  ghost predicate InOnceWritten(log: seq<Acls>, n: nat, ranges: seq<string>) {
    forall i: nat | n <= i < |log| && EntryIs(log[i], ALLOWED_RANGES, Some(ranges)) :: AdmittedFrom(log, i, ranges)
  }

  /** The address of one of the gateways covers it. */
  ghost predicate GatewayLetsIn(gateways: seq<Gateway>, a: SecurityRules.Address) {
    exists g | g in gateways && g.ip.Some? :: Covers4(g.ip.value, a)
  }

  /** No ranges are declared, or the address is in one. */
  predicate RangesLetIn(ranges: seq<string>, a: SecurityRules.Address) {
    ranges == [] || exists k | 0 <= k < |ranges| :: Covers4(ranges[k], a)
  }

  /** The entry of some machine covers it. */
  predicate MachineLetsIn(acls: Acls, a: SecurityRules.Address) {
    exists id | id in acls && "caps-" <= acls[id].name ::
      exists k | 0 <= k < |acls[id].subnets| :: Covers4(acls[id].subnets[k], a)
  }

  /** An address is let in exactly if no ranges are declared, or it is in one, is
      a gateway's, or is let in by the entry of a machine. */
  ghost predicate LetsInExactly(acls: Acls, ranges: seq<string>, gateways: seq<Gateway>) {
    forall a :: Admits(acls, a) <==> RangesLetIn(ranges, a) || GatewayLetsIn(gateways, a) || MachineLetsIn(acls, a)
  }

  lemma DeclaredLetsIn(acls: Acls, ranges: seq<string>, gateways: seq<Gateway>, a: SecurityRules.Address)
    ensures InSomeRange(GatewayAddresses(gateways), Covers4, a) <==> GatewayLetsIn(gateways, a)
  {
    hide Covers4;
    var ips := GatewayAddresses(gateways);
    if k :| 0 <= k < |ips| && Covers4(ips[k], a) {
      GatewayAddressesAre(gateways, ips[k]);
      assert ips[k] in ips;
    }
    if g :| g in gateways && g.ip.Some? && Covers4(g.ip.value, a) {
      GatewayAddressesAre(gateways, g.ip.value);
      var k :| 0 <= k < |ips| && ips[k] == g.ip.value;
      assert Covers4(ips[k], a);
    }
  }

  /** The meaning of the entries that a pass leaves, without its functions. */
  lemma DeclaredIsLetIn(acls: Acls, ranges: seq<string>, gateways: Option<seq<Gateway>>, ips: Option<seq<string>>)
    requires ips == if gateways.None? then None else Some(GatewayAddresses(gateways.value))
    requires forall a :: Admits(acls, a) <==> Declared(acls, ranges, ips, a)
    ensures LetsInExactly(acls, ranges, if gateways.None? then [] else gateways.value)
  {
    hide Covers4, Admits, GatewayLetsIn, GatewayAddresses;
    var listing := if gateways.None? then [] else gateways.value;
    forall a
      ensures Declared(acls, ranges, ips, a) <==>
                RangesLetIn(ranges, a) || GatewayLetsIn(listing, a) || MachineLetsIn(acls, a)
    {
      DeclaredLetsIn(acls, ranges, listing, a);
      NoGatewayLetsNobodyIn(a);
    }
  }

  lemma NoGatewayLetsNobodyIn(a: SecurityRules.Address)
    ensures !GatewayLetsIn([], a)
  {
  }

  /** ensureACLs. If nothing denied at the start, every state of the pass lets
      the declared ranges in: deny-all is never there ahead of them. If something
      did, every state from the one on in which the ranges are written does, even
      if the reply to that was lost, and what the old and the new ranges share is
      let in all the time. After success an address is let in exactly as declared. */
  method EnsureACLs(list: AclList, ranges: seq<string>, attached: Option<Result<seq<Gateway>, RequestFailure>>)
      returns (r: Result<(), RequestFailure>)
    requires list.Valid()
    modifies list
    ensures list.Valid() && Extends(old(list.log), list.log) && list.issued >= old(list.issued)
    ensures ranges != [] ==>
              StaysOnceWritten(list.log, |old(list.log)|, ranges) && InOnceWritten(list.log, |old(list.log)|, ranges)
    ensures ranges != [] && !Has(old(list.acls), DENY_ALL) ==> AdmittedFrom(list.log, |old(list.log)|, ranges)
    ensures ranges != [] ==> forall was | HasWith(old(list.acls), ALLOWED_RANGES, was) ::
              CommonAdmittedFrom(list.log, |old(list.log)|, was, ranges)
    ensures r.Ok? ==> (attached.Some? ==> attached.value.Ok?)
    ensures r.Ok? && (attached.None? ==> !Has(old(list.acls), PUBLIC_GATEWAY)) ==>
              var gateways := if attached.None? then None else Some(GatewayAddresses(attached.value.value));
              && FixedEntriesAre(list.acls, ranges, gateways) && EntriesAre(list.acls, ranges, gateways)
              && forall a :: Admits(list.acls, a) <==> Declared(list.acls, ranges, gateways, a)
    ensures r.Ok? && (attached.None? ==> !Has(old(list.acls), PUBLIC_GATEWAY)) ==>
              LetsInExactly(list.acls, ranges, if attached.None? then [] else attached.value.value)
    ensures attached.None? && !Has(old(list.acls), PUBLIC_GATEWAY) ==> !Has(list.acls, PUBLIC_GATEWAY)
    ensures r.Ok? ==> (list.issued == old(list.issued) <==> NothingToSend(old(list.acls), ranges, attached))
    ensures list.failures >= old(list.failures)
    ensures r.Err? && (attached.Some? ==> attached.value.Ok?) ==> list.failures > old(list.failures)
  {
    hide ListInvariant, Admits, Declared, FixedEntriesAre, OnTheWay, OldOrWritten, StaysOnceWritten, InOnceWritten,
      AdmittedFrom, CommonAdmittedFrom, HasWith, InSomeRange, LetsInExactly, GatewayAddresses, EntriesAre;
    ghost var before, n := list.acls, |list.log|;
    r := EnsureEntries(list, ranges, attached);
    if ranges != [] {
      RangesStayIn(list, n, before, ranges);
      forall was | HasWith(before, ALLOWED_RANGES, was) ensures CommonAdmittedFrom(list.log, n, was, ranges) {
        CommonRangesStayIn(list, n, before, was, ranges);
      }
    }
    if r.Ok? && (attached.None? ==> !Has(before, PUBLIC_GATEWAY)) {
      ghost var gateways := if attached.None? then None else Some(GatewayAddresses(attached.value.value));
      PassLeavesTheDeclaration(list.acls, ranges, gateways);
      FixedEntriesMean(list.acls, ranges, gateways);
      forall a ensures Admits(list.acls, a) <==> Declared(list.acls, ranges, gateways, a) {
        AdmittedExactlyAsDeclared(list.acls, ranges, gateways, a);
      }
      DeclaredIsLetIn(list.acls, ranges, if attached.None? then None else Some(attached.value.value), gateways);
    }
  }

  /** One state of the pass is safe for the ranges. */
  lemma StateIsSafe(before: Acls, state: Acls, ranges: seq<string>)
    requires ranges != []
    requires EntryIs(state, ALLOWED_RANGES, Some(ranges))
              || (!Has(before, DENY_ALL) && OldOrWritten(before, state, ranges))
    ensures RangesAreSafe(state, ranges)
  {
    if !EntryIs(state, ALLOWED_RANGES, Some(ranges)) {
      OthersStay(before, state, ALLOWED_RANGES, Some(ranges), DENY_ALL, None);
    }
  }

  lemma RangesStayIn(list: AclList, n: nat, before: Acls, ranges: seq<string>)
    requires list.Valid() && n <= |list.log| && ranges != [] && StaysOnceWritten(list.log, n, ranges)
    requires forall i | n <= i < |list.log| :: OldOrWritten(before, list.log[i], ranges)
    ensures InOnceWritten(list.log, n, ranges)
    ensures !Has(before, DENY_ALL) ==> AdmittedFrom(list.log, n, ranges)
  {
    hide ListInvariant, Admits, OnTheWay, OldOrWritten, EntryIs, InSomeRange, RangesAreSafe;
    forall i, a | n <= i < |list.log| && InSomeRange(ranges, Covers4, a)
        && (EntryIs(list.log[i], ALLOWED_RANGES, Some(ranges)) || !Has(before, DENY_ALL))
      ensures Admits(list.log[i], a)
    {
      StateIsSafe(before, list.log[i], ranges);
      EntryAdmitsItsRanges(list.log[i], ranges, a);
    }
  }

  /** While the ranges entry is being rewritten it is the old or the new one. */
  lemma CommonRangesStayIn(list: AclList, n: nat, before: Acls, was: seq<string>, ranges: seq<string>)
    requires list.Valid() && n <= |list.log| && ranges != [] && HasWith(before, ALLOWED_RANGES, was)
    requires forall i | n <= i < |list.log| :: OldOrWritten(before, list.log[i], ranges)
    ensures CommonAdmittedFrom(list.log, n, was, ranges)
  {
    hide ListInvariant, Admits, OnTheWay, OldOrWritten, EntryIs, InSomeRange, RangesAreSafe, HasWith;
    forall i, a | n <= i < |list.log| && InSomeRange(was, Covers4, a) && InSomeRange(ranges, Covers4, a)
        ensures Admits(list.log[i], a) {
      OldOrNew(before, list.log[i], was, ranges);
      if RangesAreSafe(list.log[i], was) {
        EntryAdmitsItsRanges(list.log[i], was, a);
      } else {
        EntryAdmitsItsRanges(list.log[i], ranges, a);
      }
    }
  }

  lemma OldOrNew(before: Acls, state: Acls, was: seq<string>, ranges: seq<string>)
    requires OldOrWritten(before, state, ranges) && ranges != [] && HasWith(before, ALLOWED_RANGES, was)
    ensures RangesAreSafe(state, was) || RangesAreSafe(state, ranges)
  {
    hide ListInvariant;
    if Kept(before, state, ALLOWED_RANGES) {
      var id :| id in before && before[id].name == ALLOWED_RANGES && before[id].subnets == was;
      assert id in state && state[id] == before[id];
    }
  }
}
