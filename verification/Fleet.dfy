// Any number of machine reconcilers and one cluster reconciler, interleaved at
// every request, on one load balancer.
module Fleet {
  import opened Wrappers
  import opened Scope
  import AC = AccessControl
  import AclPass
  import MC = MachineCloud
  import SecurityRules
  import opened MachineProtocol

  /** The machines' own objects by machine name, the pool of the control-plane
      backend, the frontend's access-control list, and whether there is a load balancer. */
  datatype Fleet = Fleet(machines: map<string, Mine>, pool: set<string>, acls: AC.Acls, lb: bool)

  type Configs = map<string, Config>

  function Addresses(mine: Mine): set<string> {
    (set i | i in mine.ips :: mine.ips[i].address)
        + (set n | n in mine.nics && mine.nics[n].address.Some? :: mine.nics[n].address.value)
  }

  function EntriesOf(acls: AC.Acls, m: string): map<nat, seq<string>> {
    map id | id in acls && acls[id].name == MachineName(m) :: acls[id].subnets
  }

  /** What one machine's reconciler sees of the fleet. */
  function View(f: Fleet, m: string): Own
    requires m in f.machines
  {
    Own(f.machines[m], f.pool * Addresses(f.machines[m]), EntriesOf(f.acls, m), f.lb)
  }

  /** No address is held twice. */
  ghost predicate HeldOnce(f: Fleet) {
    forall m, n | m in f.machines && n in f.machines && m != n :: Addresses(f.machines[m]) !! Addresses(f.machines[n])
  }

  ghost predicate PoolIsHeld(f: Fleet) {
    forall a | a in f.pool :: Holder(f, a)
  }

  ghost predicate Holder(f: Fleet, a: string) {
    exists m | m in f.machines :: a in Addresses(f.machines[m])
  }

  ghost predicate EntriesAreKnown(f: Fleet) {
    && AC.ListInvariant(f.acls)
    && forall id | id in f.acls :: IsFixedAclName(f.acls[id].name) || MachineOf(f, f.acls[id].name)
  }

  ghost predicate MachineOf(f: Fleet, name: string) {
    exists m | m in f.machines :: MachineName(m) == name
  }

  ghost predicate FleetInvariant(cfgs: Configs, f: Fleet) {
    && (forall m | m in f.machines :: m in cfgs && Invariant(cfgs[m], View(f, m)))
    && HeldOnce(f) && PoolIsHeld(f) && EntriesAreKnown(f)
  }

  // ---- Actions ----

  datatype Action =
    | Request(machine: string, call: Call)
    | Occur(machine: string, event: Event)
    | PutEntry(id: nat, acl: AC.Acl)
    | DropEntry(id: nat)
    | LoadBalancerGone
    | LoadBalancerBack
    | NewMachine(name: string)

  /** The cloud hands out addresses nobody holds, and IDs nobody has. An address
      a machine takes out of the pool has not been given to another one meanwhile;
      RemovalsAreFairUntilTheServerVanishes says when that holds by itself. */
  ghost predicate Fair(f: Fleet, m: string, c: Call) {
    match c
    case CreateIP(_, a) => !Holder(f, a)
    case CreateAcl(id, _) => id !in f.acls
    case DeleteAcl(id) => id in f.acls ==> f.acls[id].name == MachineName(m)
    case RemovePool(a) => forall n | n in f.machines && n != m :: a !in Addresses(f.machines[n])
    case _ => true
  }

  /** The cluster reconciler edits fixed names only. */
  ghost predicate Can(cfgs: Configs, f: Fleet, act: Action) {
    match act
    case Request(m, c) => m in f.machines && m in cfgs && Allowed(cfgs[m], View(f, m), c) && Fair(f, m, c)
    case Occur(m, e) =>
      && m in f.machines && MayHappen(View(f, m), e) && !e.BalancerGone? && !e.BalancerBack?
      && (e.Assign? ==> !Holder(f, e.address))
    case PutEntry(id, acl) =>
      && IsFixedAclName(acl.name) && AC.Expected(acl)
      && (if id in f.acls then f.acls[id].name == acl.name else !AC.Has(f.acls, acl.name))
    case DropEntry(id) => id in f.acls && IsFixedAclName(f.acls[id].name)
    case LoadBalancerGone => forall m | m in f.machines :: f.machines[m].teardown
    case LoadBalancerBack => true
    case NewMachine(name) => name !in f.machines && name in cfgs && forall id | id in f.acls ::
        f.acls[id].name != MachineName(name)
  }

  function EditList(acls: AC.Acls, m: string, c: Call): AC.Acls {
    match c
    case CreateAcl(id, a) => acls[id := AC.Acl(MachineName(m), AC.Allow, 3, [a])]
    case UpdateAcl(id, a) => acls[id := AC.Acl(MachineName(m), AC.Allow, 3, [a])]
    case DeleteAcl(id) => acls - {id}
    case _ => acls
  }

  function Act(f: Fleet, act: Action): Fleet {
    match act
    case Request(m, c) =>
      if m in f.machines then Fleet(f.machines[m := ApplyMine(f.machines[m], c)], ApplyPool(f.pool, c),
          EditList(f.acls, m, c), f.lb) else f
    case Occur(m, e) => if m in f.machines then f.(machines := f.machines[m := HappenMine(f.machines[m], e)]) else f
    case PutEntry(id, acl) => f.(acls := f.acls[id := acl])
    case DropEntry(id) => f.(acls := f.acls - {id})
    case LoadBalancerGone => Fleet(f.machines, {}, map[], false)
    case LoadBalancerBack => f.(lb := true)
    case NewMachine(name) => f.(machines := f.machines[name := INITIAL.mine])
  }

  // ---- Who holds what ----

  lemma NodeIPIsHeld(cfg: Config, mine: Mine, a: string)
    requires IsNodeIP(cfg, mine, a) || IsPublicIP(mine, a) || IsPrivateIP(mine, a)
    ensures a in Addresses(mine)
  {
    if IsPublicIP(mine, a) {
      var s :| s in mine.servers && mine.servers[s].ip.Some? && mine.servers[s].ip.value in mine.ips
          && mine.ips[mine.servers[s].ip.value].address == a;
      assert mine.servers[s].ip.value in mine.ips;
    } else {
      var n :| n in mine.nics && mine.nics[n].address == Some(a);
      assert n in mine.nics && mine.nics[n].address.Some?;
    }
  }

  /** A request gains at most the address of a new IP, and loses none that is pooled. */
  lemma RequestsAndAddresses(cfg: Config, o: Own, c: Call)
    requires Invariant(cfg, o) && Allowed(cfg, o, c)
    ensures Addresses(ApplyMine(o.mine, c)) <= Addresses(o.mine) + (if c.CreateIP? then {c.address} else {})
    ensures forall a | a in o.pooled :: a in Addresses(ApplyMine(o.mine, c))
  {
    hide Allowed;
    var extra := if c.CreateIP? then {c.address} else {};
    assert Addresses(ApplyMine(o.mine, c)) <= Addresses(o.mine) + extra by { hide Invariant, DataVolumes, Detached; }
    hide Addresses, ApplyMine, Apply;
    RequestsKeepTheInvariant(cfg, o, c);
    PooledStays(cfg, o, c);
  }

  lemma PooledStays(cfg: Config, o: Own, c: Call)
    requires Invariant(cfg, o) && Allowed(cfg, o, c)
    ensures forall a | a in o.pooled :: a in Addresses(ApplyMine(o.mine, c))
  {
    forall a | a in o.pooled ensures a in Addresses(ApplyMine(o.mine, c)) {
      if c.RemovePool? {
        NodeIPIsHeld(cfg, o.mine, a);
      } else {
        var p := Apply(o, c);
        assert a in p.pooled by { hide Invariant, Allowed, ApplyMine, ApplyAcls; }
        hide Addresses, ApplyMine, Allowed;
        RequestsKeepTheInvariant(cfg, o, c);
        NodeIPIsHeld(cfg, p.mine, a);
      }
    }
  }

  // ---- One machine's step is nobody else's ----

  lemma OwnEntriesChange(acls: AC.Acls, m: string, c: Call)
    requires c.CreateAcl? ==> c.id !in acls
    requires c.UpdateAcl? ==> c.id in EntriesOf(acls, m)
    ensures EntriesOf(EditList(acls, m, c), m) == ApplyAcls(EntriesOf(acls, m), c)
  {
  }

  lemma OtherEntriesStay(acls: AC.Acls, m: string, c: Call, n: string)
    requires n != m
    requires c.CreateAcl? ==> c.id !in acls
    requires c.UpdateAcl? ==> c.id in EntriesOf(acls, m)
    requires c.DeleteAcl? ==> c.id in acls ==> acls[c.id].name == MachineName(m)
    ensures EntriesOf(EditList(acls, m, c), n) == EntriesOf(acls, n)
  {
    MachineNamesAreTheirOwn(m, n);
    hide MachineName;
  }

  lemma OwnPoolChanges(cfg: Config, f: Fleet, m: string, c: Call)
    requires m in f.machines && Invariant(cfg, View(f, m)) && PoolIsHeld(f)
    requires Allowed(cfg, View(f, m), c) && Fair(f, m, c)
    ensures ApplyPool(f.pool, c) * Addresses(ApplyMine(f.machines[m], c)) == ApplyPool(View(f, m).pooled, c)
  {
    hide Addresses, Invariant, IsNodeIP, IsPublicIP;
    RequestsAndAddresses(cfg, View(f, m), c);
    if c.AddPool? {
      NodeIPIsHeld(cfg, f.machines[m], c.address);
      hide Allowed;
    } else if c.RemovePool? {
      hide Allowed;
    } else {
      hide Allowed, ApplyMine;
      assert c.CreateIP? ==> c.address !in f.pool;
    }
  }

  lemma OtherPoolStays(cfg: Config, f: Fleet, m: string, c: Call, n: string)
    requires m in f.machines && n in f.machines && m != n && HeldOnce(f)
    requires Allowed(cfg, View(f, m), c) && Fair(f, m, c)
    ensures ApplyPool(f.pool, c) * Addresses(f.machines[n]) == f.pool * Addresses(f.machines[n])
  {
    assert Addresses(f.machines[m]) !! Addresses(f.machines[n]);
    if c.AddPool? { NodeIPIsHeld(cfg, f.machines[m], c.address); }
    hide Addresses, IsNodeIP, IsPublicIP;
  }

  /** A machine's request does to its own part what the protocol says, and
      nothing at all to any other machine's pool membership, entry or objects. */
  lemma RequestIsLocal(cfgs: Configs, f: Fleet, m: string, c: Call)
    requires FleetInvariant(cfgs, f) && Can(cfgs, f, Request(m, c))
    ensures View(Act(f, Request(m, c)), m) == Apply(View(f, m), c)
    ensures forall n | n in f.machines && n != m :: View(Act(f, Request(m, c)), n) == View(f, n)
  {
    hide Invariant, Allowed, Fair, ApplyMine, ApplyPool, ApplyAcls, EditList, EntriesOf, Addresses, HeldOnce,
        PoolIsHeld, EntriesAreKnown;
    var g := Act(f, Request(m, c));
    RequestEditsOwn(cfgs[m], f, m, c);
    OwnEntriesChange(f.acls, m, c);
    OwnPoolChanges(cfgs[m], f, m, c);
    forall n | n in f.machines && n != m ensures View(g, n) == View(f, n) {
      OtherEntriesStay(f.acls, m, c, n);
      OtherPoolStays(cfgs[m], f, m, c, n);
    }
  }

  lemma RequestEditsOwn(cfg: Config, f: Fleet, m: string, c: Call)
    requires m in f.machines && Allowed(cfg, View(f, m), c) && Fair(f, m, c)
    ensures c.CreateAcl? ==> c.id !in f.acls
    ensures c.UpdateAcl? ==> c.id in EntriesOf(f.acls, m)
    ensures c.DeleteAcl? ==> c.id in f.acls ==> f.acls[c.id].name == MachineName(m)
  {
    hide IsPublicIP, IsNodeIP;
  }

  /** The only pool edit that can hit another machine: an address read before the
      own server vanished, and handed out again since. That is what Fair rules
      out, and exactly that. */
  lemma RemovalHitsAnotherExactlyWhenReassigned(cfgs: Configs, f: Fleet, m: string, a: string, n: string)
    requires FleetInvariant(cfgs, f) && m in f.machines && n in f.machines && n != m
    ensures View(Act(f, Request(m, RemovePool(a))), n) != View(f, n) <==> a in f.pool && a in Addresses(f.machines[n])
  {
    var g := Act(f, Request(m, RemovePool(a)));
    hide Addresses, Invariant;
    assert g.machines[n] == f.machines[n];
    assert View(f, n).pooled - View(g, n).pooled == if a in f.pool && a in Addresses(f.machines[n]) then {a} else {};
  }

  // ---- Events ----

  lemma EventsAndAddresses(o: Own, e: Event)
    requires MayHappen(o, e) && !e.Vanishes?
    ensures Addresses(HappenMine(o.mine, e)) == Addresses(o.mine) + (if e.Assign? then {e.address} else {})
  {
    var q := HappenMine(o.mine, e);
    if e.Assign? {
      assert forall n | n in o.mine.nics && n != e.nic :: q.nics[n] == o.mine.nics[n];
      assert q.nics[e.nic].address == Some(e.address);
      assert e.nic in q.nics;
    }
  }

  lemma VanishingLosesAddresses(o: Own, e: Event)
    requires MayHappen(o, e) && e.Vanishes?
    ensures Addresses(HappenMine(o.mine, e)) <= Addresses(o.mine)
  {
  }

  lemma EventIsLocal(cfgs: Configs, f: Fleet, m: string, e: Event)
    requires FleetInvariant(cfgs, f) && Can(cfgs, f, Occur(m, e))
    ensures View(Act(f, Occur(m, e)), m) == Happen(View(f, m), e)
    ensures forall n | n in f.machines && n != m :: View(Act(f, Occur(m, e)), n) == View(f, n)
  {
    hide Addresses, Invariant, MayHappen, HappenMine, EntriesOf, HeldOnce, EntriesAreKnown;
    var o := View(f, m);
    EventAddresses(cfgs[m], o, e);
    if e.Assign? { assert e.address !in f.pool; }
    assert f.pool * Addresses(HappenMine(o.mine, e)) == o.pooled;
  }

  /** The cluster reconciler's list edits and the load balancer's comings and
      goings, as every machine sees them. */
  lemma ClusterEditsNoMachine(cfgs: Configs, f: Fleet, act: Action)
    requires FleetInvariant(cfgs, f) && Can(cfgs, f, act) && (act.PutEntry? || act.DropEntry?)
    ensures forall m | m in f.machines :: View(Act(f, act), m) == View(f, m)
  {
    hide Addresses, Invariant, AC.Expected, AC.ListInvariant;
    forall m | m in f.machines ensures EntriesOf(Act(f, act).acls, m) == EntriesOf(f.acls, m) {
      MachineNamesAreTheirOwn(m, m);
      hide MachineName;
    }
  }

  lemma BalancerIsShared(cfgs: Configs, f: Fleet, m: string)
    requires FleetInvariant(cfgs, f) && m in f.machines
    ensures View(Act(f, LoadBalancerGone), m) == Happen(View(f, m), BalancerGone)
    ensures View(Act(f, LoadBalancerBack), m) == Happen(View(f, m), BalancerBack)
    ensures Can(cfgs, f, LoadBalancerGone) ==> MayHappen(View(f, m), BalancerGone)
  {
    hide Invariant;
  }

  // ---- The invariant of the fleet ----

  lemma AddressesSpread(f: Fleet, g: Fleet, m: string, extra: set<string>)
    requires m in f.machines && g.machines.Keys == f.machines.Keys
              && (forall n | n in f.machines && n != m :: g.machines[n] == f.machines[n])
    requires HeldOnce(f) && (forall x | x in extra :: !Holder(f, x))
    requires Addresses(g.machines[m]) <= Addresses(f.machines[m]) + extra
    ensures HeldOnce(g)
  {
    hide Addresses;
    forall n | n in f.machines && n != m ensures Addresses(g.machines[m]) !! Addresses(g.machines[n]) {
      assert Addresses(f.machines[m]) !! Addresses(f.machines[n]);
      assert forall x | x in extra :: x !in Addresses(f.machines[n]);
    }
    forall i, j | i in g.machines && j in g.machines && i != j
        ensures Addresses(g.machines[i]) !! Addresses(g.machines[j]) {
      if i != m && j != m { assert Addresses(f.machines[i]) !! Addresses(f.machines[j]); }
    }
  }

  lemma PoolSpreads(f: Fleet, g: Fleet, m: string)
    requires m in f.machines && g.machines.Keys == f.machines.Keys
              && (forall n | n in f.machines && n != m :: g.machines[n] == f.machines[n])
    requires PoolIsHeld(f) && g.pool <= f.pool + Addresses(g.machines[m])
    requires forall a | a in f.pool && a in Addresses(f.machines[m]) :: a in Addresses(g.machines[m])
    ensures PoolIsHeld(g)
  {
    hide Addresses;
    forall a | a in g.pool ensures Holder(g, a) {
      if a !in Addresses(g.machines[m]) {
        assert Holder(f, a);
        var h :| h in f.machines && a in Addresses(f.machines[h]);
        assert a in Addresses(g.machines[h]);
      }
    }
  }

  lemma NamesSpread(f: Fleet, g: Fleet)
    requires f.machines.Keys <= g.machines.Keys
    ensures forall name | MachineOf(f, name) :: MachineOf(g, name)
  {
    assert forall m | m in f.machines :: m in g.machines;
  }

  lemma RequestKeepsTheRest(cfgs: Configs, f: Fleet, m: string, c: Call)
    requires FleetInvariant(cfgs, f) && Can(cfgs, f, Request(m, c))
    ensures HeldOnce(Act(f, Request(m, c))) && PoolIsHeld(Act(f, Request(m, c)))
  {
    hide Invariant, Allowed, ApplyMine, Addresses, EntriesAreKnown, HeldOnce, PoolIsHeld, Holder;
    var g := Act(f, Request(m, c));
    RequestsAndAddresses(cfgs[m], View(f, m), c);
    if c.AddPool? { JoinsUnderItsAddress(cfgs[m], View(f, m), c); }
    AddressesSpread(f, g, m, if c.CreateIP? then {c.address} else {});
    assert forall a | a in f.pool && a in Addresses(f.machines[m]) :: a in View(f, m).pooled;
    PoolSpreads(f, g, m);
  }

  lemma JoinsUnderItsAddress(cfg: Config, o: Own, c: Call)
    requires Allowed(cfg, o, c) && c.AddPool?
    ensures c.address in Addresses(ApplyMine(o.mine, c))
  {
    hide Addresses;
    NodeIPIsHeld(cfg, o.mine, c.address);
  }

  lemma RequestKeepsEntriesKnown(cfgs: Configs, f: Fleet, m: string, c: Call)
    requires FleetInvariant(cfgs, f) && Can(cfgs, f, Request(m, c))
    ensures EntriesAreKnown(Act(f, Request(m, c)))
  {
    var g := Act(f, Request(m, c));
    assert MachineOf(g, MachineName(m));
    NamesSpread(f, g);
    EditedListKeeps(cfgs[m], f, m, c);
    hide Invariant, Allowed, Fair, ApplyMine, AC.ListInvariant, IsFixedAclName, MachineOf, MachineName, HeldOnce,
        PoolIsHeld;
  }

  lemma EditedListKeeps(cfg: Config, f: Fleet, m: string, c: Call)
    requires m in f.machines && AC.ListInvariant(f.acls) && Allowed(cfg, View(f, m), c) && Fair(f, m, c)
    ensures AC.ListInvariant(EditList(f.acls, m, c))
  {
    if c.CreateAcl? || c.UpdateAcl? {
      var acl := AC.Acl(MachineName(m), AC.Allow, 3, [c.address]);
      AclPass.MachineEntryIsExpected(m, c.address);
      if c.CreateAcl? {
        assert !AC.Has(f.acls, MachineName(m)) by {
          assert EntriesOf(f.acls, m) == map[];
          assert forall id | id in f.acls :: id !in EntriesOf(f.acls, m);
        }
      }
      assert c.UpdateAcl? ==> c.id in EntriesOf(f.acls, m);
      hide AC.ListInvariant, AC.Expected, MachineName, IsPublicIP, AC.IsMachineAclName;
      AclPass.PuttingAnEntry(f.acls, c.id, acl, f.acls[c.id := acl]);
    }
  }

  lemma RequestKeeps(cfgs: Configs, f: Fleet, m: string, c: Call)
    requires FleetInvariant(cfgs, f) && Can(cfgs, f, Request(m, c))
    ensures FleetInvariant(cfgs, Act(f, Request(m, c)))
  {
    var g := Act(f, Request(m, c));
    assert g.machines.Keys == f.machines.Keys;
    RequestIsLocal(cfgs, f, m, c);
    RequestsKeepTheInvariant(cfgs[m], View(f, m), c);
    RequestKeepsTheRest(cfgs, f, m, c);
    RequestKeepsEntriesKnown(cfgs, f, m, c);
    hide Invariant, Can, Act, HeldOnce, PoolIsHeld, EntriesAreKnown, View, Apply;
  }

  lemma OccurKeeps(cfgs: Configs, f: Fleet, m: string, e: Event)
    requires FleetInvariant(cfgs, f) && Can(cfgs, f, Occur(m, e))
    ensures FleetInvariant(cfgs, Act(f, Occur(m, e)))
  {
    hide Invariant, MayHappen, HeldOnce, PoolIsHeld, EntriesAreKnown, View, Happen, HappenMine, Holder;
    var g := Act(f, Occur(m, e));
    assert g.machines.Keys == f.machines.Keys;
    EventIsLocal(cfgs, f, m, e);
    EventsKeepTheInvariant(cfgs[m], View(f, m), e);
    EventKeepsTheRest(cfgs, f, m, e);
    hide Can, Act;
  }

  lemma ClusterEditKeeps(cfgs: Configs, f: Fleet, act: Action)
    requires FleetInvariant(cfgs, f) && Can(cfgs, f, act) && (act.PutEntry? || act.DropEntry?)
    ensures FleetInvariant(cfgs, Act(f, act))
  {
    var g := Act(f, act);
    ClusterEditsNoMachine(cfgs, f, act);
    if act.PutEntry? {
      AclPass.PuttingAnEntry(f.acls, act.id, act.acl, g.acls);
    } else {
      AclPass.DroppingAnEntry(f.acls, act.id);
    }
    ClusterKeepsTheRest(f, g);
    hide Invariant, AC.ListInvariant, AC.Expected, HeldOnce, PoolIsHeld, View, MachineOf;
  }

  lemma BalancerStepKeeps(cfgs: Configs, f: Fleet, act: Action)
    requires FleetInvariant(cfgs, f) && Can(cfgs, f, act) && (act.LoadBalancerGone? || act.LoadBalancerBack?)
    ensures FleetInvariant(cfgs, Act(f, act))
  {
    var g := Act(f, act);
    BalancerKeepsViews(cfgs, f, act, if act.LoadBalancerGone? then BalancerGone else BalancerBack);
    ClusterKeepsTheRest(f, g);
    hide Invariant, AC.Expected, HeldOnce, View, PoolIsHeld, IsFixedAclName, MachineOf;
    assert PoolIsHeld(g) by { assert g.pool <= f.pool; }
  }

  /** Every action of anyone keeps the invariant of the fleet. */
  lemma ActionsKeepTheInvariant(cfgs: Configs, f: Fleet, act: Action)
    requires FleetInvariant(cfgs, f) && Can(cfgs, f, act)
    ensures FleetInvariant(cfgs, Act(f, act))
  {
    hide FleetInvariant, Can, Act;
    match act
    case Request(m, c) => RequestKeeps(cfgs, f, m, c);
    case Occur(m, e) => OccurKeeps(cfgs, f, m, e);
    case PutEntry(_, _) => ClusterEditKeeps(cfgs, f, act);
    case DropEntry(_) => ClusterEditKeeps(cfgs, f, act);
    case LoadBalancerGone => BalancerStepKeeps(cfgs, f, act);
    case LoadBalancerBack => BalancerStepKeeps(cfgs, f, act);
    case NewMachine(name) => NewMachineKeeps(cfgs, f, name);
  }

  lemma ClusterKeepsTheRest(f: Fleet, g: Fleet)
    requires g.machines == f.machines
    ensures HeldOnce(f) ==> HeldOnce(g)
    ensures PoolIsHeld(f) && g.pool <= f.pool ==> PoolIsHeld(g)
    ensures forall name | MachineOf(f, name) :: MachineOf(g, name)
  {
    hide Addresses;
    assert forall a | Holder(f, a) :: Holder(g, a);
  }

  lemma BalancerKeepsViews(cfgs: Configs, f: Fleet, act: Action, e: Event)
    requires FleetInvariant(cfgs, f) && Can(cfgs, f, act)
    requires (act.LoadBalancerGone? && e.BalancerGone?) || (act.LoadBalancerBack? && e.BalancerBack?)
    ensures forall m | m in f.machines :: m in cfgs && Invariant(cfgs[m], View(Act(f, act), m))
  {
    forall m | m in f.machines ensures m in cfgs && Invariant(cfgs[m], View(Act(f, act), m)) {
      BalancerIsShared(cfgs, f, m);
      BalancerKeeps(cfgs[m], View(f, m), e);
    }
  }

  /** An event gains at most the address it assigns, and loses none that is pooled. */
  lemma EventAddresses(cfg: Config, o: Own, e: Event)
    requires Invariant(cfg, o) && MayHappen(o, e)
    ensures Addresses(HappenMine(o.mine, e)) <= Addresses(o.mine) + (if e.Assign? then {e.address} else {})
    ensures forall a | a in o.pooled && a in Addresses(o.mine) :: a in Addresses(HappenMine(o.mine, e))
    ensures e.Vanishes? ==> o.pooled == {}
    ensures !e.Vanishes? ==> Addresses(o.mine) <= Addresses(HappenMine(o.mine, e))
  {
    if e.Vanishes? {
      assert o.pooled == {} by {
        hide MineInvariant;
        assert SomeTerminating(o.mine);
      }
      VanishingLosesAddresses(o, e);
    } else {
      EventsAndAddresses(o, e);
    }
    hide Addresses, Invariant, MayHappen, HappenMine;
  }

  lemma EventKeepsTheRest(cfgs: Configs, f: Fleet, m: string, e: Event)
    requires FleetInvariant(cfgs, f) && Can(cfgs, f, Occur(m, e))
    ensures var g := Act(f, Occur(m, e)); HeldOnce(g) && PoolIsHeld(g) && EntriesAreKnown(g)
  {
    hide Addresses, Invariant, MayHappen, HappenMine, AC.ListInvariant, IsFixedAclName, EntriesOf, HeldOnce, PoolIsHeld,
        Holder, MachineOf;
    var g := Act(f, Occur(m, e));
    var o := View(f, m);
    EventAddresses(cfgs[m], o, e);
    AddressesSpread(f, g, m, if e.Assign? then {e.address} else {});
    assert forall a | a in f.pool && a in Addresses(f.machines[m]) :: a in o.pooled;
    PoolSpreads(f, g, m);
    NamesSpread(f, g);
  }

  lemma NewMachineKeeps(cfgs: Configs, f: Fleet, name: string)
    requires FleetInvariant(cfgs, f) && Can(cfgs, f, NewMachine(name))
    ensures FleetInvariant(cfgs, Act(f, NewMachine(name)))
  {
    hide Addresses, Invariant, AC.ListInvariant, IsFixedAclName, EntriesOf, MachineName, MachineOf, HeldOnce,
        PoolIsHeld;
    var g := Act(f, NewMachine(name));
    NamesSpread(f, g);
    NewMachineIsFresh(cfgs[name], f, name);
    HeldOnceByMore(f, g, name);
    PoolOfMore(f, g);
    assert forall n | n in f.machines :: View(g, n) == View(f, n);
    hide View;
  }

  lemma HeldOnceByMore(f: Fleet, g: Fleet, name: string)
    requires HeldOnce(f) && name !in f.machines && g.machines == f.machines[name := INITIAL.mine]
    ensures HeldOnce(g)
  {
    assert Addresses(INITIAL.mine) == {};
    hide Addresses;
  }

  lemma NewMachineIsFresh(cfg: Config, f: Fleet, name: string)
    requires name !in f.machines && forall id | id in f.acls :: f.acls[id].name != MachineName(name)
    ensures Invariant(cfg, View(Act(f, NewMachine(name)), name))
  {
    var g := Act(f, NewMachine(name));
    assert Addresses(INITIAL.mine) == {};
    assert EntriesOf(g.acls, name) == map[];
    hide Addresses, EntriesOf;
    TheStartIsInvariant(cfg);
  }

  lemma PoolOfMore(f: Fleet, g: Fleet)
    requires PoolIsHeld(f) && g.pool == f.pool && forall m | m in f.machines ::
              m in g.machines && g.machines[m] == f.machines[m]
    ensures PoolIsHeld(g)
  {
    hide Addresses;
    forall a | a in g.pool ensures Holder(g, a) {
      var h :| h in f.machines && a in Addresses(f.machines[h]);
      assert a in Addresses(g.machines[h]);
    }
  }

  // ---- Interleaved runs ----

  ghost predicate FleetStep(cfgs: Configs, f: Fleet, g: Fleet) {
    f == g || exists act :: Can(cfgs, f, act) && g == Act(f, act)
  }

  ghost predicate FleetRun(cfgs: Configs, run: seq<Fleet>) {
    && |run| > 0 && FleetInvariant(cfgs, run[0])
    && forall i | 0 <= i < |run| - 1 :: FleetStep(cfgs, run[i], run[i + 1])
  }

  lemma {:induction false} FleetRunsKeepTheInvariant(cfgs: Configs, run: seq<Fleet>, i: nat)
    requires FleetRun(cfgs, run) && i < |run|
    ensures FleetInvariant(cfgs, run[i])
  {
    hide FleetInvariant, Can, Act;
    if i > 0 {
      FleetRunsKeepTheInvariant(cfgs, run, i - 1);
      assert FleetStep(cfgs, run[i - 1], run[i]);
      var f, g := run[i - 1], run[i];
      if act :| Can(cfgs, f, act) && g == Act(f, act) {
        ActionsKeepTheInvariant(cfgs, f, act);
      }
    }
  }

  /** To each machine, every action of anybody is a step of its own protocol. */
  lemma ActionIsAStep(cfgs: Configs, f: Fleet, act: Action, m: string)
    requires FleetInvariant(cfgs, f) && Can(cfgs, f, act) && m in f.machines
    ensures m in Act(f, act).machines && m in cfgs && Step(cfgs[m], View(f, m), View(Act(f, act), m))
  {
    hide Invariant, Allowed, MayHappen, Apply, Happen, Addresses, EntriesOf, ApplyMine, HappenMine, HeldOnce,
        PoolIsHeld, EntriesAreKnown;
    match act
    case Request(n, c) => RequestIsLocal(cfgs, f, n, c);
    case Occur(n, e) => EventIsLocal(cfgs, f, n, e);
    case PutEntry(_, _) => ClusterEditsNoMachine(cfgs, f, act);
    case DropEntry(_) => ClusterEditsNoMachine(cfgs, f, act);
    case LoadBalancerGone => BalancerIsShared(cfgs, f, m);
    case LoadBalancerBack => BalancerIsShared(cfgs, f, m); AlwaysBack(View(f, m));
    case NewMachine(name) => assert View(Act(f, act), m) == View(f, m);
  }

  lemma AlwaysBack(o: Own)
    ensures MayHappen(o, BalancerBack)
  {
  }

  ghost predicate Present(run: seq<Fleet>, m: string) {
    forall i | 0 <= i < |run| :: m in run[i].machines
  }

  ghost function Projection(run: seq<Fleet>, m: string): seq<Own>
    requires Present(run, m)
  {
    seq(|run|, i requires 0 <= i < |run| => View(run[i], m))
  }

  lemma {:induction false} MachinesStay(cfgs: Configs, run: seq<Fleet>, m: string, i: nat)
    requires FleetRun(cfgs, run) && m in run[0].machines && i < |run|
    ensures m in run[i].machines && m in cfgs
    ensures i + 1 < |run| ==> m in run[i + 1].machines && Step(cfgs[m], View(run[i], m), View(run[i + 1], m))
  {
    hide Can, Act, View, Step;
    FleetRunsKeepTheInvariant(cfgs, run, 0);
    if i > 0 { MachinesStay(cfgs, run, m, i - 1); }
    FleetRunsKeepTheInvariant(cfgs, run, i);
    if i + 1 < |run| {
      assert FleetStep(cfgs, run[i], run[i + 1]);
      hide FleetInvariant;
      if act :| Can(cfgs, run[i], act) && run[i + 1] == Act(run[i], act) {
        ActionIsAStep(cfgs, run[i], act, m);
      } else {
        StandingStill(cfgs[m], View(run[i], m));
      }
    }
  }

  lemma StandingStill(cfg: Config, o: Own)
    ensures Step(cfg, o, o)
  {
  }

  /** However the reconcilers are interleaved, what one machine goes through is a
      run of its protocol; all that is proved about those runs holds here. */
  lemma EachMachineRuns(cfgs: Configs, run: seq<Fleet>, m: string)
    requires FleetRun(cfgs, run) && m in run[0].machines
    ensures Present(run, m) && m in cfgs && IsRun(cfgs[m], Projection(run, m))
  {
    hide Step, View, Invariant;
    forall i | 0 <= i < |run| ensures m in run[i].machines {
      MachinesStay(cfgs, run, m, i);
    }
    var own := Projection(run, m);
    forall i | 0 <= i < |own| - 1 ensures Step(cfgs[m], own[i], own[i + 1]) {
      MachinesStay(cfgs, run, m, i);
    }
    hide FleetStep;
  }

  // ---- What interleaving cannot break ----

  /** Every address in the pool is the node address of exactly one machine, a
      control-plane one whose server exists and is not on its way out. */
  lemma PooledAddressesAreLive(cfgs: Configs, run: seq<Fleet>, i: nat, a: string)
    requires FleetRun(cfgs, run) && i < |run| && a in run[i].pool
    ensures exists m ::
              m in run[i].machines && m in cfgs && cfgs[m].controlPlane && IsNodeIP(cfgs[m], run[i].machines[m], a)
                        && run[i].machines[m].servers != map[] && !SomeTerminating(run[i].machines[m])
    ensures forall m, n | m in run[i].machines && n in run[i].machines && a in Addresses(run[i].machines[m])
              && a in Addresses(run[i].machines[n]) :: m == n
  {
    FleetRunsKeepTheInvariant(cfgs, run, i);
    var f := run[i];
    hide Addresses, IsNodeIP, MineInvariant, AC.ListInvariant;
    assert Holder(f, a);
    var m :| m in f.machines && a in Addresses(f.machines[m]);
    assert a in View(f, m).pooled;
    if f.machines[m].servers == map[] {
      NothingListedWithoutAServer(cfgs[m], View(f, m));
    }
    assert IsNodeIP(cfgs[m], f.machines[m], a);
  }

  /** An action of somebody else: not a request of m, not its server vanishing,
      and not the load balancer going away. */
  predicate IsForeign(act: Action, m: string) {
    && !act.LoadBalancerGone? && (act.Request? ==> act.machine != m)
    && (act.Occur? && act.machine == m ==> !act.event.Vanishes?)
  }

  ghost predicate Foreign(cfgs: Configs, f: Fleet, g: Fleet, m: string) {
    f == g || exists act :: Can(cfgs, f, act) && g == Act(f, act) && IsForeign(act, m)
  }

  lemma ForeignActionsKeepWhatWasRead(cfgs: Configs, f: Fleet, act: Action, m: string)
    requires FleetInvariant(cfgs, f) && Can(cfgs, f, act) && m in f.machines && IsForeign(act, m)
    ensures var g := Act(f, act);
            m in g.machines && View(g, m).pooled == View(f, m).pooled && View(g, m).acls == View(f, m).acls
            && Addresses(f.machines[m]) <= Addresses(g.machines[m])
  {
    var g := Act(f, act);
    hide Invariant, Allowed, Fair, MayHappen, HeldOnce, PoolIsHeld, EntriesAreKnown;
    match act
    case Request(n, c) =>
      RequestIsLocal(cfgs, f, n, c);
      hide FleetInvariant, Can, Addresses, EntriesOf, ApplyMine, ApplyPool, EditList;
      assert View(g, m) == View(f, m);
    case Occur(n, e) =>
      EventIsLocal(cfgs, f, n, e);
      if n == m { EventsAndAddresses(View(f, m), e); }
      hide FleetInvariant, Can, Addresses, EntriesOf, HappenMine;
    case PutEntry(_, _) =>
      ClusterEditsNoMachine(cfgs, f, act);
      hide FleetInvariant, Can, Addresses, EntriesOf;
    case DropEntry(_) =>
      ClusterEditsNoMachine(cfgs, f, act);
      hide FleetInvariant, Can, Addresses, EntriesOf;
    case LoadBalancerBack => hide FleetInvariant, Can, Addresses, EntriesOf;
    case NewMachine(name) => hide FleetInvariant, Addresses, EntriesOf;
  }

  /** A snapshot of the pool may be arbitrarily old: about the machine's own
      addresses it is still right, and so is what was read about its entry. */
  lemma {:induction false} StaleSnapshotsAreRight(cfgs: Configs, run: seq<Fleet>, i: nat, j: nat, m: string)
    requires FleetRun(cfgs, run) && i <= j < |run| && m in run[i].machines
    requires forall k | i <= k < j :: Foreign(cfgs, run[k], run[k + 1], m)
    ensures m in run[j].machines && EntriesOf(run[j].acls, m) == EntriesOf(run[i].acls, m)
    ensures Addresses(run[i].machines[m]) <= Addresses(run[j].machines[m])
    ensures forall a | a in Addresses(run[i].machines[m]) :: a in run[i].pool <==> a in run[j].pool
  {
    hide Can, Act, Addresses, EntriesOf, FleetInvariant, FleetRun;
    if i < j {
      StaleSnapshotsAreRight(cfgs, run, i, j - 1, m);
      FleetRunsKeepTheInvariant(cfgs, run, j - 1);
      assert Foreign(cfgs, run[j - 1], run[j], m);
      if act :| Can(cfgs, run[j - 1], act) && run[j] == Act(run[j - 1], act) && IsForeign(act, m) {
        ForeignActionsKeepWhatWasRead(cfgs, run[j - 1], act, m);
        assert forall a | a in Addresses(run[i].machines[m]) :: a in run[j - 1].pool <==>
            a in View(run[j - 1], m).pooled;
        assert forall a | a in Addresses(run[i].machines[m]) :: a in run[j].pool <==> a in View(run[j], m).pooled;
      }
    }
  }

  /** The actions that can take an address from a machine: its own deletions, and
      its server vanishing. */
  predicate TakesAddresses(act: Action, m: string) {
    || (act.Request? && act.machine == m && (act.call.DeleteIP? || act.call.DeleteServer?))
    || (act.Occur? && act.machine == m && act.event.Vanishes?)
  }

  ghost predicate Spares(cfgs: Configs, f: Fleet, g: Fleet, m: string) {
    f == g || exists act :: Can(cfgs, f, act) && g == Act(f, act) && !TakesAddresses(act, m)
  }

  lemma OwnAddressesStay(cfg: Config, o: Own, c: Call)
    requires Allowed(cfg, o, c) && !c.DeleteIP? && !c.DeleteServer?
    ensures Addresses(o.mine) <= Addresses(ApplyMine(o.mine, c))
  {
    hide IsNodeIP, IsPublicIP, DataVolumes, Detached, MayGo;
    assert forall i | i in o.mine.ips :: i in ApplyMine(o.mine, c).ips && ApplyMine(o.mine, c).ips[i] == o.mine.ips[i];
    assert forall n | n in o.mine.nics ::
        n in ApplyMine(o.mine, c).nics && ApplyMine(o.mine, c).nics[n] == o.mine.nics[n];
    hide Allowed, ApplyMine;
  }

  lemma SparedAddressesStay(cfgs: Configs, f: Fleet, act: Action, m: string)
    requires FleetInvariant(cfgs, f) && Can(cfgs, f, act) && m in f.machines && !TakesAddresses(act, m)
    ensures m in Act(f, act).machines && Addresses(f.machines[m]) <= Addresses(Act(f, act).machines[m])
  {
    hide FleetInvariant, Addresses, Allowed, MayHappen, ApplyMine, HappenMine, Fair;
    if act.Request? && act.machine == m { OwnAddressesStay(cfgs[m], View(f, m), act.call); }
    if act.Occur? && act.machine == m { EventsAndAddresses(View(f, m), act.event); }
  }

  lemma {:induction false} AddressesStayWhileSpared(cfgs: Configs, run: seq<Fleet>, i: nat, j: nat, m: string)
    requires FleetRun(cfgs, run) && i <= j < |run| && m in run[i].machines
    requires forall k | i <= k < j :: Spares(cfgs, run[k], run[k + 1], m)
    ensures m in run[j].machines && Addresses(run[i].machines[m]) <= Addresses(run[j].machines[m])
  {
    hide Can, Act, Addresses, FleetInvariant, FleetRun;
    if i < j {
      AddressesStayWhileSpared(cfgs, run, i, j - 1, m);
      FleetRunsKeepTheInvariant(cfgs, run, j - 1);
      assert Spares(cfgs, run[j - 1], run[j], m);
      if act :| Can(cfgs, run[j - 1], act) && run[j] == Act(run[j - 1], act) && !TakesAddresses(act, m) {
        SparedAddressesStay(cfgs, run[j - 1], act, m);
      }
    }
  }

  /** Whatever happens to anybody, taking out of the pool an address that was read
      is Fair as long as the machine's own server has not vanished since, and the
      machine has not deleted it: nobody else can have been given the address. */
  lemma RemovalsAreFairUntilTheServerVanishes(cfgs: Configs, run: seq<Fleet>, i: nat, j: nat, m: string, a: string)
    requires FleetRun(cfgs, run) && i <= j < |run| && m in run[i].machines && a in Addresses(run[i].machines[m])
    requires forall k | i <= k < j :: Spares(cfgs, run[k], run[k + 1], m)
    ensures Fair(run[j], m, RemovePool(a))
  {
    hide FleetRun, Spares, Addresses, Invariant, PoolIsHeld, EntriesAreKnown;
    AddressesStayWhileSpared(cfgs, run, i, j, m);
    FleetRunsKeepTheInvariant(cfgs, run, j);
    forall n | n in run[j].machines && n != m ensures a !in Addresses(run[j].machines[n]) {
      assert Addresses(run[j].machines[m]) !! Addresses(run[j].machines[n]);
    }
  }

  // ---- The fleet as one reconciler meets it ----

  /** Whatever is not a request of the machine is, in its view, what its
      reconciler is shown to cope with between two requests. */
  lemma OthersAreDrift(cfgs: Configs, f: Fleet, act: Action, m: string)
    requires FleetInvariant(cfgs, f) && Can(cfgs, f, act) && m in f.machines && (act.Request? ==> act.machine != m)
    ensures m in Act(f, act).machines && MC.Drift(View(f, m), View(Act(f, act), m))
  {
    hide Invariant, Allowed, MayHappen, Apply, Happen, Addresses, EntriesOf, ApplyMine, HappenMine, HeldOnce,
        PoolIsHeld, EntriesAreKnown, MC.Drift;
    MC.DriftIsReflexive(View(f, m));
    match act
    case Request(n, c) => RequestIsLocal(cfgs, f, n, c);
    case Occur(n, e) =>
      EventIsLocal(cfgs, f, n, e);
      if n == m { MC.EventsDrift(cfgs[m], View(f, m), e); }
    case PutEntry(_, _) => ClusterEditsNoMachine(cfgs, f, act);
    case DropEntry(_) => ClusterEditsNoMachine(cfgs, f, act);
    case LoadBalancerGone =>
      BalancerIsShared(cfgs, f, m);
      MC.EventsDrift(cfgs[m], View(f, m), BalancerGone);
    case LoadBalancerBack =>
      BalancerIsShared(cfgs, f, m);
      AlwaysBack(View(f, m));
      MC.EventsDrift(cfgs[m], View(f, m), BalancerBack);
    case NewMachine(name) => assert View(Act(f, act), m) == View(f, m);
  }

  /** No step between the two states was a request of the machine. */
  ghost predicate Quiet(cfgs: Configs, f: Fleet, g: Fleet, m: string) {
    f == g || exists act :: Can(cfgs, f, act) && g == Act(f, act) && (act.Request? ==> act.machine != m)
  }

  /** So between two requests of a machine, however long that is and whoever is
      at work, its view drifts and no more. */
  lemma {:induction false} BetweenRequestsTheViewDrifts(cfgs: Configs, run: seq<Fleet>, i: nat, j: nat, m: string)
    requires FleetRun(cfgs, run) && i <= j < |run| && m in run[i].machines
    requires forall k | i <= k < j :: Quiet(cfgs, run[k], run[k + 1], m)
    ensures m in run[j].machines && MC.Drift(View(run[i], m), View(run[j], m))
  {
    hide Can, Act, View, FleetInvariant, FleetRun, MC.Drift;
    if i == j {
      MC.DriftIsReflexive(View(run[i], m));
    } else {
      BetweenRequestsTheViewDrifts(cfgs, run, i, j - 1, m);
      FleetRunsKeepTheInvariant(cfgs, run, j - 1);
      var f, g := run[j - 1], run[j];
      assert Quiet(cfgs, f, g, m);
      if act :| Can(cfgs, f, act) && g == Act(f, act) && (act.Request? ==> act.machine != m) {
        OthersAreDrift(cfgs, f, act, m);
        MC.DriftIsTransitive(View(run[i], m), View(f, m), View(g, m));
      }
    }
  }

  // ---- Who is let in ----

  /** A server that is powered on with a public IP is let in at that moment,
      whatever the cluster pass and the other machines are doing to the list. */
  lemma PublicIPIsLetIn(cfgs: Configs, run: seq<Fleet>, i: nat, m: string, s: nat, order: seq<AC.Acl>,
      covers: AC.Coverage, ip: nat, a: SecurityRules.Address)
    requires FleetRun(cfgs, run) && i + 1 < |run| && m in run[0].machines
    requires m in run[i].machines && m in run[i + 1].machines
    requires s in run[i].machines[m].servers && run[i].machines[m].servers[s].power == Stopped
    requires s in run[i + 1].machines[m].servers && run[i + 1].machines[m].servers[s].power == Starting
    requires ip in run[i].machines[m].ips && covers(run[i].machines[m].ips[ip].address, a)
    requires AC.ByIndex(order, run[i].acls) && (covers("0.0.0.0/0", a) || covers("::/0", a))
    ensures AC.FirstMatch(order, covers, a) == AC.Allow
  {
    EachMachineRuns(cfgs, run, m);
    FleetRunsKeepTheInvariant(cfgs, run, i);
    var own := Projection(run, m);
    assert own[i] == View(run[i], m) && own[i + 1] == View(run[i + 1], m);
    PowerOnIsReady(cfgs[m], own, i, s);
    var acls := run[i].acls;
    var address := run[i].machines[m].ips[ip].address;
    assert exists id | id in own[i].acls :: own[i].acls[id] == [address];
    hide FleetRun, IsRun, Projection, Addresses, Invariant, HeldOnce, PoolIsHeld, MachineOf;
    var id :| id in own[i].acls && own[i].acls[id] == [address];
    assert id in acls && acls[id].name == MachineName(m) && acls[id].subnets == [address];
    MachineNamesAreTheirOwn(m, m);
    assert acls[id].action == AC.Allow && AC.Hits(acls[id], covers, a) by { assert covers(acls[id].subnets[0], a); }
    AC.AdmissionIsOrderFree(acls, order, covers, a);
  }

  /** Reading the shared pool for an address that nobody else holds is reading
      one's own part of it, also after the address was lost. */
  lemma ReadingThePoolIsReadingTheView(cfgs: Configs, f: Fleet, m: string, a: string)
    requires FleetInvariant(cfgs, f) && m in f.machines
    requires forall n | n in f.machines && n != m :: a !in Addresses(f.machines[n])
    ensures a in f.pool <==> a in View(f, m).pooled
  {
    hide Addresses, Invariant, HeldOnce, EntriesAreKnown;
    if a in f.pool {
      assert Holder(f, a);
    }
  }

  /** After a successful cluster pass nobody else is let in: an admitted address
      is in the declared ranges, a gateway's, or the public IP of a machine whose
      server still exists. */
  lemma OnlyTheDeclaredAndTheMachinesAreLetIn(cfgs: Configs, run: seq<Fleet>, i: nat, order: seq<AC.Acl>,
      ranges: seq<string>, gateways: Option<seq<string>>, covers: AC.Coverage, a: SecurityRules.Address)
    requires FleetRun(cfgs, run) && i < |run|
    requires AC.ByIndex(order, run[i].acls) && AC.FixedEntriesAre(run[i].acls, ranges, gateways)
    requires covers("0.0.0.0/0", a) || covers("::/0", a)
    requires AC.FirstMatch(order, covers, a) == AC.Allow && ranges != []
    ensures AC.InSomeRange(ranges, covers, a) || AC.InSomeRange(AC.GatewayList(gateways), covers, a)
            || exists m, x :: m in run[i].machines && IsPublicIP(run[i].machines[m], x) && covers(x, a)
  {
    FleetRunsKeepTheInvariant(cfgs, run, i);
    var f := run[i];
    AC.ListMeansTheDeclaration(f.acls, order, ranges, gateways, covers, a);
    hide FleetRun, AC.ListInvariant, AC.FixedEntriesAre, AC.ByIndex, AC.InSomeRange, HeldOnce, PoolIsHeld,
        MineInvariant, IsPublicIP, IsNodeIP, Addresses;
    if id :| id in f.acls && AC.IsMachineAclName(f.acls[id].name) && AC.Hits(f.acls[id], covers, a) {
      AC.NamesAreApart();
      assert MachineOf(f, f.acls[id].name);
      var m :| m in f.machines && MachineName(m) == f.acls[id].name;
      assert View(f, m).acls[id] == f.acls[id].subnets;
      var k :| 0 <= k < |f.acls[id].subnets| && covers(f.acls[id].subnets[k], a);
      assert IsPublicIP(f.machines[m], f.acls[id].subnets[0]) && k == 0;
    }
  }
}
