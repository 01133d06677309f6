// One machine's part of the cloud as a state machine: the requests its
// controller may send in each state, what the cloud does by itself, and what
// holds in every state of every run.
module MachineProtocol {
  import opened Wrappers

  /** What is fixed for a machine: its public-IP choice and role, and whether its
      cluster has a Private Network. */
  datatype Config = Config(needsIP: bool, hasPN: bool, controlPlane: bool)

  datatype Power = Stopped | Starting | Running | Terminating

  /** What the rendered cloud-init data was given. */
  datatype CloudInit = CloudInit(nodeIP: string, server: nat)

  datatype Volume = Volume(id: nat, boot: bool)

  // `inits` counts the writes of cloud-init, `started` remembers a power-on.
  datatype Server =
    Server(power: Power, ip: Option<nat>, init: Option<CloudInit>, inits: nat, started: bool,
           volumes: map<string, Volume>)

  datatype Ip = Ip(address: string, dynamic: bool)

  datatype Nic = Nic(server: nat, address: Option<string>)

  /** The objects found by the machine's tags, name and server. `keep` holds the
      data volumes that were attached when the teardown began. */
  datatype Mine =
    Mine(ips: map<nat, Ip>, servers: map<nat, Server>, nics: map<nat, Nic>, volumes: set<nat>, teardown: bool,
         keep: set<nat>)

  /** The machine's own objects, its addresses in the control-plane pool, and the
      access-control entries of its name. */
  datatype Own = Own(mine: Mine, pooled: set<string>, acls: map<nat, seq<string>>, lb: bool)

  const INITIAL := Own(Mine(map[], map[], map[], {}, false, {}), {}, map[], false)

  predicate AtMostOne<T>(m: map<nat, T>) {
    forall i, j | i in m && j in m :: i == j
  }

  /** The address is the public IP attached to the machine's server. */
  predicate IsPublicIP(mine: Mine, a: string) {
    exists s | s in mine.servers ::
        mine.servers[s].ip.Some? && mine.servers[s].ip.value in mine.ips
        && mine.ips[mine.servers[s].ip.value].address == a
  }

  predicate IsPrivateIP(mine: Mine, a: string) {
    exists n | n in mine.nics :: mine.nics[n].address == Some(a)
  }

  /** The address under which the load balancer reaches the machine. */
  predicate IsNodeIP(cfg: Config, mine: Mine, a: string) {
    if cfg.hasPN then IsPrivateIP(mine, a) else IsPublicIP(mine, a)
  }

  predicate AttachedOf(sv: Server, v: nat) {
    exists k | k in sv.volumes :: sv.volumes[k].id == v
  }

  // ---- The invariant ----

  predicate VolumesInvariant(existing: set<nat>, keep: set<nat>, teardown: bool, vols: map<string, Volume>) {
    && (forall k | k in vols :: vols[k].id in existing && (vols[k].boot <==> k == "0"))
    && (forall k | k in vols && vols[k].boot :: vols[k].id !in keep)
    && (forall j, k | j in vols && k in vols && vols[j].id == vols[k].id :: j == k)
    && (!teardown ==> "0" in vols)
  }

  predicate IPInvariant(cfg: Config, ips: map<nat, Ip>, teardown: bool, ip: Option<nat>) {
    && (ip.Some? ==> ip.value in ips)
    && (forall i | i in ips :: ip == Some(i))
    && (cfg.needsIP && !teardown ==> ip.Some?)
  }

  /** Cloud-init is written at most once and for this server; what was powered
      on has it. */
  predicate BootInvariant(s: nat, sv: Server) {
    && sv.inits == (if sv.init.Some? then 1 else 0)
    && (sv.init.Some? ==> sv.init.value.server == s)
    && (sv.power != Stopped ==> sv.started)
    && (sv.started ==> sv.init.Some?)
  }

  predicate EndInvariant(keep: set<nat>, teardown: bool, sv: Server) {
    sv.power == Terminating ==> teardown && sv.ip.None? && KeepsOut(keep, sv.volumes)
  }

  predicate KeepsOut(keep: set<nat>, vols: map<string, Volume>) {
    forall k | k in vols :: vols[k].id !in keep
  }

  predicate ServerInvariant(cfg: Config, mine: Mine, s: nat, sv: Server) {
    && IPInvariant(cfg, mine.ips, mine.teardown, sv.ip)
    && VolumesInvariant(mine.volumes, mine.keep, mine.teardown, sv.volumes)
    && BootInvariant(s, sv)
    && EndInvariant(mine.keep, mine.teardown, sv)
    && (sv.init.Some? && !mine.teardown ==> IsNodeIP(cfg, mine, sv.init.value.nodeIP))
  }

  predicate ListsInvariant(cfg: Config, mine: Mine) {
    && AtMostOne(mine.ips) && AtMostOne(mine.servers) && AtMostOne(mine.nics)
    && (forall i | i in mine.ips :: cfg.needsIP && !mine.ips[i].dynamic)
    && (forall n | n in mine.nics :: cfg.hasPN && mine.nics[n].server in mine.servers)
    && (!mine.teardown && mine.servers == map[] ==> mine.volumes == {})
    && mine.keep <= mine.volumes
  }

  predicate MineInvariant(cfg: Config, mine: Mine) {
    && ListsInvariant(cfg, mine)
    && forall s | s in mine.servers :: ServerInvariant(cfg, mine, s, mine.servers[s])
  }

  predicate SomeTerminating(mine: Mine) {
    exists s | s in mine.servers :: mine.servers[s].power == Terminating
  }

  /** Pool and access-control entries only name an address of a server that
      still exists and is not on its way out. */
  predicate SharedInvariant(cfg: Config, o: Own) {
    && AtMostOne(o.acls)
    && (forall a | a in o.pooled :: cfg.controlPlane && IsNodeIP(cfg, o.mine, a))
    && (forall id | id in o.acls :: |o.acls[id]| == 1 && IsPublicIP(o.mine, o.acls[id][0]))
    && (!o.lb || SomeTerminating(o.mine) ==> o.pooled == {} && o.acls == map[])
  }

  predicate Invariant(cfg: Config, o: Own) {
    MineInvariant(cfg, o.mine) && SharedInvariant(cfg, o)
  }

  // ---- Requests ----

  datatype Call =
    | CreateIP(id: nat, address: string)
    | CreateServer(id: nat, ip: Option<nat>, boot: nat)
    | CreateNic(id: nat, server: nat)
    | AddPool(address: string)
    | RemovePool(address: string)
    | CreateAcl(id: nat, address: string)
    | UpdateAcl(id: nat, address: string)
    | DeleteAcl(id: nat)
    | SetCloudInit(server: nat, init: CloudInit)
    | PowerOn(server: nat)
    | BeginTeardown
    | DeleteIP(id: nat)
    | DetachVolume(volume: nat)
    | DeleteVolume(volume: nat)
    | DeleteServer(server: nat)
    | Terminate(server: nat)

  /** The load balancer will send traffic to the server and let it in. */
  predicate Reachable(cfg: Config, o: Own) {
    && (cfg.controlPlane ==> exists a | a in o.pooled :: IsNodeIP(cfg, o.mine, a))
    && (forall i | i in o.mine.ips :: exists id | id in o.acls :: o.acls[id] == [o.mine.ips[i].address])
  }

  predicate Unlisted(o: Own) {
    o.pooled == {} && o.acls == map[]
  }

  /** The server may go: nothing points to it, it holds no IP and no data volume. */
  predicate MayGo(o: Own, s: nat) {
    && o.mine.teardown && s in o.mine.servers && Unlisted(o) && o.mine.servers[s].ip.None?
    && forall k | k in o.mine.servers[s].volumes :: o.mine.servers[s].volumes[k].id !in o.mine.keep
  }

  /** What the controller may ask for in a state. */
  predicate Allowed(cfg: Config, o: Own, c: Call) {
    var mine := o.mine;
    match c
    case CreateIP(_, _) => cfg.needsIP && mine.ips == map[] && !mine.teardown
    case CreateServer(_, ip, _) =>
      mine.servers == map[] && !mine.teardown && (ip.Some? <==> cfg.needsIP) && (ip.Some? ==> ip.value in mine.ips)
    case CreateNic(_, s) => cfg.hasPN && mine.nics == map[] && s in mine.servers && !mine.teardown
    case AddPool(a) => cfg.controlPlane && o.lb && IsNodeIP(cfg, mine, a) && !mine.teardown
    case RemovePool(a) => mine.teardown
    case CreateAcl(_, a) => o.lb && o.acls == map[] && IsPublicIP(mine, a) && !mine.teardown
    case UpdateAcl(id, a) => id in o.acls && IsPublicIP(mine, a) && !mine.teardown
    case DeleteAcl(_) => mine.teardown
    case SetCloudInit(s, init) =>
      && s in mine.servers && mine.servers[s].power == Stopped && mine.servers[s].init.None? && !mine.teardown
      && init.server == s && IsNodeIP(cfg, mine, init.nodeIP)
    case PowerOn(s) =>
      s in mine.servers && mine.servers[s].power == Stopped && mine.servers[s].init.Some? && !mine.teardown
          && Reachable(cfg, o)
    case BeginTeardown => true
    case DeleteIP(id) => mine.teardown && o.acls == map[] && (!cfg.hasPN ==> o.pooled == {})
    case DetachVolume(_) => mine.teardown
    case DeleteVolume(v) => mine.teardown && v !in mine.keep && forall s | s in mine.servers ::
        !AttachedOf(mine.servers[s], v)
    case DeleteServer(s) => MayGo(o, s) && mine.servers[s].power == Stopped
    case Terminate(s) => MayGo(o, s) && mine.servers[s].started
  }

  function Detached(vols: map<string, Volume>, v: nat): map<string, Volume> {
    map k | k in vols && vols[k].id != v :: vols[k]
  }

  function Without(sv: Server, v: nat): Server {
    sv.(volumes := Detached(sv.volumes, v))
  }

  function WithoutIP(sv: Server, id: nat): Server {
    if sv.ip == Some(id) then sv.(ip := None) else sv
  }

  function DataVolumes(mine: Mine): set<nat> {
    set s, k | s in mine.servers && k in mine.servers[s].volumes && !mine.servers[s].volumes[k].boot ::
        mine.servers[s].volumes[k].id
  }

  function NicsWithout(mine: Mine, s: nat): map<nat, Nic> {
    map n | n in mine.nics && mine.nics[n].server != s :: mine.nics[n]
  }

  function ApplyMine(mine: Mine, c: Call): Mine {
    match c
    case CreateIP(id, a) => mine.(ips := mine.ips[id := Ip(a, false)])
    case CreateServer(id, ip, boot) =>
      mine.(servers := mine.servers[id := Server(Stopped, ip, None, 0, false, map["0" := Volume(boot, true)])],
          volumes := mine.volumes + {boot})
    case CreateNic(id, s) => mine.(nics := mine.nics[id := Nic(s, None)])
    case SetCloudInit(s, init) =>
      if s !in mine.servers then mine
      else mine.(servers := mine.servers[s := mine.servers[s].(init := Some(init), inits := mine.servers[s].inits + 1)])
    case PowerOn(s) =>
      if s !in mine.servers then mine
      else mine.(servers := mine.servers[s := mine.servers[s].(power := Starting, started := true)])
    case BeginTeardown => if mine.teardown then mine else mine.(teardown := true, keep := DataVolumes(mine))
    case DeleteIP(id) => mine.(ips := mine.ips - {id}, servers := map s | s in mine.servers ::
        WithoutIP(mine.servers[s], id))
    case DetachVolume(v) => mine.(servers := map s | s in mine.servers :: Without(mine.servers[s], v))
    case DeleteVolume(v) => mine.(volumes := mine.volumes - {v})
    case DeleteServer(s) => mine.(servers := mine.servers - {s}, nics := NicsWithout(mine, s))
    case Terminate(s) =>
      if s !in mine.servers then mine
      else mine.(servers := mine.servers[s := mine.servers[s].(power := Terminating)])
    case _ => mine
  }

  function ApplyPool(pooled: set<string>, c: Call): set<string> {
    match c
    case AddPool(a) => pooled + {a}
    case RemovePool(a) => pooled - {a}
    case _ => pooled
  }

  function ApplyAcls(acls: map<nat, seq<string>>, c: Call): map<nat, seq<string>> {
    match c
    case CreateAcl(id, a) => acls[id := [a]]
    case UpdateAcl(id, a) => acls[id := [a]]
    case DeleteAcl(id) => acls - {id}
    case _ => acls
  }

  function Apply(o: Own, c: Call): Own {
    Own(ApplyMine(o.mine, c), ApplyPool(o.pooled, c), ApplyAcls(o.acls, c), o.lb)
  }

  // ---- What the cloud and its users do by themselves ----

  datatype Event =
    | Assign(nic: nat, address: string)
    | Boots(server: nat)
    | ShutsDown(server: nat)
    | Vanishes(server: nat)
    | Attach(server: nat, key: string, volume: nat)
    | BalancerGone
    | BalancerBack

  /** The load balancer only goes away when the machine is being torn down, and
      users attach data volumes only before. */
  predicate MayHappen(o: Own, e: Event) {
    var mine := o.mine;
    match e
    case Assign(n, _) => n in mine.nics && mine.nics[n].address.None?
    case Boots(s) => s in mine.servers && mine.servers[s].power == Starting
    case ShutsDown(s) => s in mine.servers && mine.servers[s].power == Running
    case Vanishes(s) => s in mine.servers && mine.servers[s].power == Terminating
    case Attach(s, key, v) => s in mine.servers && !mine.teardown && key !in mine.servers[s].volumes
        && v !in mine.volumes
    case BalancerGone => mine.teardown
    case BalancerBack => true
  }

  function AttachedVolumes(sv: Server): set<nat> {
    set k | k in sv.volumes :: sv.volumes[k].id
  }

  function HappenMine(mine: Mine, e: Event): Mine {
    match e
    case Assign(n, a) => if n in mine.nics then mine.(nics := mine.nics[n := mine.nics[n].(address := Some(a))])
        else mine
    case Boots(s) => if s in mine.servers then mine.(servers := mine.servers[s := mine.servers[s].(power := Running)])
        else mine
    case ShutsDown(s) => if s in mine.servers then mine.(servers :=
        mine.servers[s := mine.servers[s].(power := Stopped)]) else mine
    case Vanishes(s) =>
      if s in mine.servers
      then mine.(servers := mine.servers - {s}, nics := NicsWithout(mine, s), volumes :=
          mine.volumes - AttachedVolumes(mine.servers[s]))
      else mine
    case Attach(s, key, v) =>
      if s in mine.servers
      then mine.(servers :=
          mine.servers[s := mine.servers[s].(volumes := mine.servers[s].volumes[key := Volume(v, false)])], volumes :=
          mine.volumes + {v})
      else mine
    case _ => mine
  }

  function Happen(o: Own, e: Event): Own {
    match e
    case BalancerGone => Own(o.mine, {}, map[], false)
    case BalancerBack => o.(lb := true)
    case _ => o.(mine := HappenMine(o.mine, e))
  }

  // ---- Runs ----

  /** One step: a request that took effect, an event, or nothing. */
  ghost predicate Step(cfg: Config, o: Own, p: Own) {
    || o == p
    || (exists c :: Allowed(cfg, o, c) && p == Apply(o, c))
    || (exists e :: MayHappen(o, e) && p == Happen(o, e))
  }

  ghost predicate IsRun(cfg: Config, run: seq<Own>) {
    && |run| > 0 && Invariant(cfg, run[0])
    && forall i | 0 <= i < |run| - 1 :: Step(cfg, run[i], run[i + 1])
  }

  lemma TheStartIsInvariant(cfg: Config)
    ensures Invariant(cfg, INITIAL)
  {
  }

  lemma CreatingAnIPKeeps(cfg: Config, o: Own, c: Call)
    requires Invariant(cfg, o) && Allowed(cfg, o, c) && c.CreateIP?
    ensures Invariant(cfg, Apply(o, c))
  {
    assert o.mine.servers.Keys == {};
    hide VolumesInvariant, BootInvariant, EndInvariant;
  }

  lemma CreatingAServerKeeps(cfg: Config, o: Own, c: Call)
    requires Invariant(cfg, o) && Allowed(cfg, o, c) && c.CreateServer?
    ensures Invariant(cfg, Apply(o, c))
  {
    var p := Apply(o, c);
    hide IsNodeIP;
    assert ServerInvariant(cfg, p.mine, c.id, p.mine.servers[c.id]);
    assert o.pooled == {} && o.acls == map[] by {
      NothingListedWithoutAServer(cfg, o);
    }
  }

  lemma NothingListedWithoutAServer(cfg: Config, o: Own)
    requires Invariant(cfg, o) && o.mine.servers == map[]
    ensures Unlisted(o) && o.mine.nics == map[]
  {
    assert forall n :: n !in o.mine.nics;
    assert forall a :: !IsPublicIP(o.mine, a) && !IsPrivateIP(o.mine, a);
    assert forall id :: id !in o.acls;
  }

  lemma CreatingANicKeeps(cfg: Config, o: Own, c: Call)
    requires Invariant(cfg, o) && Allowed(cfg, o, c) && c.CreateNic?
    ensures Invariant(cfg, Apply(o, c))
  {
    var p := Apply(o, c);
    assert forall a :: !IsPrivateIP(o.mine, a);
    assert forall a | IsPublicIP(o.mine, a) :: IsPublicIP(p.mine, a);
    hide IsPublicIP, IsPrivateIP, IPInvariant, VolumesInvariant, BootInvariant, EndInvariant;
  }

  lemma ListingKeeps(cfg: Config, o: Own, c: Call)
    requires Invariant(cfg, o) && Allowed(cfg, o, c)
    requires c.AddPool? || c.RemovePool? || c.CreateAcl? || c.UpdateAcl? || c.DeleteAcl?
    ensures Invariant(cfg, Apply(o, c))
  {
    assert Apply(o, c).mine == o.mine;
    hide MineInvariant, IsNodeIP, IsPublicIP;
  }

  lemma SameNames(a: Mine, b: Mine)
    requires a.ips == b.ips && a.nics == b.nics && a.servers.Keys == b.servers.Keys
    requires forall s | s in a.servers :: a.servers[s].ip == b.servers[s].ip
    ensures forall x :: IsPublicIP(a, x) == IsPublicIP(b, x)
    ensures forall x :: IsPrivateIP(a, x) == IsPrivateIP(b, x)
  {
  }

  /** Cloud-init and power-on touch one server and none of its addresses. */
  lemma StartingKeeps(cfg: Config, o: Own, c: Call)
    requires Invariant(cfg, o) && Allowed(cfg, o, c) && (c.SetCloudInit? || c.PowerOn?)
    ensures Invariant(cfg, Apply(o, c))
  {
    var p := Apply(o, c);
    hide IsPublicIP, IsPrivateIP, IPInvariant, VolumesInvariant, KeepsOut, Reachable;
    SameNames(o.mine, p.mine);
    forall s | s in o.mine.servers ensures ServerInvariant(cfg, p.mine, s, p.mine.servers[s]) {
      assert ServerInvariant(cfg, o.mine, s, o.mine.servers[s]);
    }
    hide ServerInvariant;
  }

  lemma TeardownKeeps(cfg: Config, o: Own)
    requires Invariant(cfg, o)
    ensures Invariant(cfg, Apply(o, BeginTeardown))
  {
    var p := Apply(o, BeginTeardown);
    hide IsPublicIP, IsPrivateIP, VolumesInvariant, DataVolumes, KeepsOut;
    SameNames(o.mine, p.mine);
    if !o.mine.teardown {
      forall s | s in o.mine.servers
          ensures ServerInvariant(cfg, p.mine, s, p.mine.servers[s]) && p.mine.keep <= o.mine.volumes {
        assert ServerInvariant(cfg, o.mine, s, o.mine.servers[s]);
        KeepingDataVolumes(o.mine, s);
      }
      assert o.mine.servers == map[] ==> p.mine.keep == {} by { NoServerNoVolumes(o.mine); }
      hide ServerInvariant;
    }
  }

  lemma NoServerNoVolumes(mine: Mine)
    ensures mine.servers == map[] ==> DataVolumes(mine) == {}
  {
  }

  lemma KeepingDataVolumes(mine: Mine, s: nat)
    requires s in mine.servers && AtMostOne(mine.servers)
    requires VolumesInvariant(mine.volumes, mine.keep, mine.teardown, mine.servers[s].volumes)
    ensures VolumesInvariant(mine.volumes, DataVolumes(mine), true, mine.servers[s].volumes)
    ensures DataVolumes(mine) <= mine.volumes
  {
    var vols := mine.servers[s].volumes;
    assert DataVolumes(mine) == set k | k in vols && !vols[k].boot :: vols[k].id;
  }

  lemma ReleasingTheIPKeeps(cfg: Config, o: Own, c: Call)
    requires Invariant(cfg, o) && Allowed(cfg, o, c) && c.DeleteIP?
    ensures Invariant(cfg, Apply(o, c))
  {
    var p := Apply(o, c);
    assert forall a :: IsPrivateIP(o.mine, a) == IsPrivateIP(p.mine, a);
    hide IsPublicIP, IsPrivateIP, VolumesInvariant, KeepsOut;
  }

  lemma DetachingKeeps(cfg: Config, o: Own, c: Call)
    requires Invariant(cfg, o) && Allowed(cfg, o, c) && c.DetachVolume?
    ensures Invariant(cfg, Apply(o, c))
  {
    var p := Apply(o, c);
    hide Detached, VolumesInvariant, KeepsOut, IPInvariant, IsPublicIP, IsPrivateIP;
    SameNames(o.mine, p.mine);
    forall s | s in o.mine.servers ensures ServerInvariant(cfg, p.mine, s, p.mine.servers[s]) {
      assert ServerInvariant(cfg, o.mine, s, o.mine.servers[s]);
      DetachingFromOne(o.mine.volumes, o.mine.keep, o.mine.servers[s].volumes, c.volume);
    }
    hide ServerInvariant;
  }

  lemma DetachingFromOne(existing: set<nat>, keep: set<nat>, vols: map<string, Volume>, v: nat)
    requires VolumesInvariant(existing, keep, true, vols)
    ensures VolumesInvariant(existing, keep, true, Detached(vols, v))
    ensures KeepsOut(keep, vols) ==> KeepsOut(keep, Detached(vols, v))
  {
  }

  lemma DroppingAVolumeKeeps(cfg: Config, o: Own, c: Call)
    requires Invariant(cfg, o) && Allowed(cfg, o, c) && c.DeleteVolume?
    ensures Invariant(cfg, Apply(o, c))
  {
    var p := Apply(o, c);
    hide KeepsOut, IPInvariant, IsPublicIP, IsPrivateIP, BootInvariant;
    SameNames(o.mine, p.mine);
    forall s | s in o.mine.servers ensures ServerInvariant(cfg, p.mine, s, p.mine.servers[s]) {
      assert ServerInvariant(cfg, o.mine, s, o.mine.servers[s]);
    }
    hide ServerInvariant;
  }

  lemma GoingKeeps(cfg: Config, o: Own, c: Call)
    requires Invariant(cfg, o) && Allowed(cfg, o, c) && (c.DeleteServer? || c.Terminate?)
    ensures Invariant(cfg, Apply(o, c))
  {
    hide IsPublicIP, IsPrivateIP, IPInvariant, VolumesInvariant;
  }

  /** Every request the controller may send keeps the invariant. */
  lemma RequestsKeepTheInvariant(cfg: Config, o: Own, c: Call)
    requires Invariant(cfg, o) && Allowed(cfg, o, c)
    ensures Invariant(cfg, Apply(o, c))
  {
    hide Invariant, Allowed, Apply;
    match c
    case CreateIP(_, _) => CreatingAnIPKeeps(cfg, o, c);
    case CreateServer(_, _, _) => CreatingAServerKeeps(cfg, o, c);
    case CreateNic(_, _) => CreatingANicKeeps(cfg, o, c);
    case AddPool(_) => ListingKeeps(cfg, o, c);
    case RemovePool(_) => ListingKeeps(cfg, o, c);
    case CreateAcl(_, _) => ListingKeeps(cfg, o, c);
    case UpdateAcl(_, _) => ListingKeeps(cfg, o, c);
    case DeleteAcl(_) => ListingKeeps(cfg, o, c);
    case SetCloudInit(_, _) => StartingKeeps(cfg, o, c);
    case PowerOn(_) => StartingKeeps(cfg, o, c);
    case BeginTeardown => TeardownKeeps(cfg, o);
    case DeleteIP(_) => ReleasingTheIPKeeps(cfg, o, c);
    case DetachVolume(_) => DetachingKeeps(cfg, o, c);
    case DeleteVolume(_) => DroppingAVolumeKeeps(cfg, o, c);
    case DeleteServer(_) => GoingKeeps(cfg, o, c);
    case Terminate(_) => GoingKeeps(cfg, o, c);
  }

  lemma AssigningKeeps(cfg: Config, o: Own, e: Event)
    requires Invariant(cfg, o) && MayHappen(o, e) && e.Assign?
    ensures Invariant(cfg, Happen(o, e))
  {
    var p := Happen(o, e);
    assert forall x :: !IsPrivateIP(o.mine, x);
    assert forall x :: IsPublicIP(o.mine, x) == IsPublicIP(p.mine, x);
    hide IsPublicIP, IsPrivateIP, IPInvariant, VolumesInvariant, BootInvariant, EndInvariant;
  }

  lemma PowerChangesKeep(cfg: Config, o: Own, e: Event)
    requires Invariant(cfg, o) && MayHappen(o, e) && (e.Boots? || e.ShutsDown?)
    ensures Invariant(cfg, Happen(o, e))
  {
    var p := Happen(o, e);
    hide IsPublicIP, IsPrivateIP, IPInvariant, VolumesInvariant, KeepsOut;
    SameNames(o.mine, p.mine);
    forall s | s in o.mine.servers ensures ServerInvariant(cfg, p.mine, s, p.mine.servers[s]) {
      assert ServerInvariant(cfg, o.mine, s, o.mine.servers[s]);
    }
    hide ServerInvariant;
  }

  lemma VanishingKeeps(cfg: Config, o: Own, e: Event)
    requires Invariant(cfg, o) && MayHappen(o, e) && e.Vanishes?
    ensures Invariant(cfg, Happen(o, e))
  {
    hide IsPublicIP, IsPrivateIP, IPInvariant, VolumesInvariant;
  }

  lemma AttachingKeeps(cfg: Config, o: Own, e: Event)
    requires Invariant(cfg, o) && MayHappen(o, e) && e.Attach?
    ensures Invariant(cfg, Happen(o, e))
  {
    var p := Happen(o, e);
    hide VolumesInvariant, KeepsOut, IPInvariant, IsPublicIP, IsPrivateIP;
    SameNames(o.mine, p.mine);
    forall s | s in o.mine.servers ensures ServerInvariant(cfg, p.mine, s, p.mine.servers[s]) {
      assert s == e.server && ServerInvariant(cfg, o.mine, s, o.mine.servers[s]);
      AttachingToOne(o.mine.volumes, o.mine.keep, o.mine.servers[s].volumes, e.key, e.volume);
    }
    hide ServerInvariant;
  }

  lemma AttachingToOne(existing: set<nat>, keep: set<nat>, vols: map<string, Volume>, key: string, v: nat)
    requires VolumesInvariant(existing, keep, false, vols) && key !in vols && v !in existing
    ensures VolumesInvariant(existing + {v}, keep, false, vols[key := Volume(v, false)])
  {
  }

  lemma BalancerKeeps(cfg: Config, o: Own, e: Event)
    requires Invariant(cfg, o) && (e.BalancerGone? || e.BalancerBack?)
    ensures Invariant(cfg, Happen(o, e))
  {
    hide MineInvariant;
  }

  /** So does everything that happens by itself. */
  lemma EventsKeepTheInvariant(cfg: Config, o: Own, e: Event)
    requires Invariant(cfg, o) && MayHappen(o, e)
    ensures Invariant(cfg, Happen(o, e))
  {
    hide Invariant, MayHappen, Happen;
    match e
    case Assign(_, _) => AssigningKeeps(cfg, o, e);
    case Boots(_) => PowerChangesKeep(cfg, o, e);
    case ShutsDown(_) => PowerChangesKeep(cfg, o, e);
    case Vanishes(_) => VanishingKeeps(cfg, o, e);
    case Attach(_, _, _) => AttachingKeeps(cfg, o, e);
    case BalancerGone => BalancerKeeps(cfg, o, e);
    case BalancerBack => BalancerKeeps(cfg, o, e);
  }

  lemma StepsKeepTheInvariant(cfg: Config, o: Own, p: Own)
    requires Invariant(cfg, o) && Step(cfg, o, p)
    ensures Invariant(cfg, p)
  {
    hide Invariant, Allowed, Apply, MayHappen, Happen;
    if c :| Allowed(cfg, o, c) && p == Apply(o, c) {
      RequestsKeepTheInvariant(cfg, o, c);
    } else if e :| MayHappen(o, e) && p == Happen(o, e) {
      EventsKeepTheInvariant(cfg, o, e);
    }
  }

  /** Every state of every run satisfies the invariant. */
  lemma {:induction false} RunsKeepTheInvariant(cfg: Config, run: seq<Own>, i: nat)
    requires IsRun(cfg, run) && i < |run|
    ensures Invariant(cfg, run[i])
  {
    hide Invariant, Step;
    if i > 0 {
      RunsKeepTheInvariant(cfg, run, i - 1);
      StepsKeepTheInvariant(cfg, run[i - 1], run[i]);
    }
  }

  // ---- What later states owe to earlier ones ----

  predicate ServersFollow(a: Mine, b: Mine) {
    && (!b.teardown ==> forall s | s in a.servers :: s in b.servers && b.servers[s].ip == a.servers[s].ip)
    && (forall s | s in a.servers && s in b.servers && a.servers[s].init.Some? ::
        b.servers[s].init == a.servers[s].init)
    && (a.teardown ==> forall s | s in b.servers :: s in a.servers)
  }

  predicate AddressesFollow(a: Mine, b: Mine) {
    && (!b.teardown ==> forall i | i in a.ips :: i in b.ips && b.ips[i] == a.ips[i])
    && (!b.teardown ==> forall n | n in a.nics && a.nics[n].address.Some? :: n in b.nics && b.nics[n] == a.nics[n])
    && (a.teardown ==> forall i | i in b.ips :: i in a.ips)
  }

  /** Before the teardown nothing that was made goes away or is made again;
      from its start on, nothing is made and no entry comes back. */
  predicate Follows(o: Own, p: Own) {
    && (o.mine.teardown ==> p.mine.teardown && p.mine.keep == o.mine.keep)
    && ServersFollow(o.mine, p.mine) && AddressesFollow(o.mine, p.mine)
    && (o.mine.teardown ==> p.pooled <= o.pooled && p.acls.Keys <= o.acls.Keys)
    && (!p.mine.teardown ==> o.pooled <= p.pooled && o.acls.Keys <= p.acls.Keys)
  }

  lemma RequestsFollow(cfg: Config, o: Own, c: Call)
    requires Invariant(cfg, o) && Allowed(cfg, o, c)
    ensures Follows(o, Apply(o, c))
  {
    hide ServerInvariant, SharedInvariant, IsNodeIP, IsPublicIP, Unlisted, Detached, DataVolumes, Reachable;
    var p := Apply(o, c);
    assert ServersFollow(o.mine, p.mine);
    assert AddressesFollow(o.mine, p.mine);
    hide ServersFollow, AddressesFollow, MineInvariant;
  }

  lemma EventsFollow(cfg: Config, o: Own, e: Event)
    requires Invariant(cfg, o) && MayHappen(o, e)
    ensures Follows(o, Happen(o, e))
  {
    hide SharedInvariant, IPInvariant, VolumesInvariant, BootInvariant, IsNodeIP, KeepsOut;
    var p := Happen(o, e);
    if e.Vanishes? { assert ServerInvariant(cfg, o.mine, e.server, o.mine.servers[e.server]); }
    hide MineInvariant;
    assert ServersFollow(o.mine, p.mine);
    assert AddressesFollow(o.mine, p.mine);
    hide ServersFollow, AddressesFollow;
  }

  lemma FollowsIsTransitive(o: Own, p: Own, q: Own)
    requires Follows(o, p) && Follows(p, q)
    ensures Follows(o, q)
  {
    assert ServersFollow(o.mine, q.mine);
    assert AddressesFollow(o.mine, q.mine);
    hide ServersFollow, AddressesFollow;
  }

  lemma {:induction false} RunsFollow(cfg: Config, run: seq<Own>, i: nat, j: nat)
    requires IsRun(cfg, run) && i <= j < |run|
    ensures Follows(run[i], run[j])
  {
    hide Invariant, Allowed, Apply, MayHappen, Happen;
    if i < j {
      RunsFollow(cfg, run, i, j - 1);
      RunsKeepTheInvariant(cfg, run, j - 1);
      var o, p := run[j - 1], run[j];
      assert Step(cfg, o, p);
      if c :| Allowed(cfg, o, c) && p == Apply(o, c) {
        RequestsFollow(cfg, o, c);
      } else if e :| MayHappen(o, e) && p == Happen(o, e) {
        EventsFollow(cfg, o, e);
      }
      FollowsIsTransitive(run[i], o, p);
    }
  }

  // ---- What the runs guarantee ----

  /** Whatever crashes and retries there were, a machine keeps the one server
      it was given, and so its provider ID, until its teardown begins. */
  lemma SameServerThroughout(cfg: Config, run: seq<Own>, i: nat, j: nat, s: nat)
    requires IsRun(cfg, run) && i <= j < |run|
    requires s in run[i].mine.servers && !run[j].mine.teardown
    ensures run[j].mine.servers.Keys == {s}
    ensures run[j].mine.servers[s].ip == run[i].mine.servers[s].ip
  {
    RunsFollow(cfg, run, i, j);
    RunsKeepTheInvariant(cfg, run, j);
    assert ListsInvariant(cfg, run[j].mine);
    hide Invariant, IsRun;
  }

  /** Cloud-init is written at most once in the life of a server, for that
      server, and never changes afterwards. */
  lemma CloudInitIsWrittenOnce(cfg: Config, run: seq<Own>, i: nat, j: nat, s: nat)
    requires IsRun(cfg, run) && i <= j < |run|
    requires s in run[i].mine.servers && s in run[j].mine.servers
    ensures run[j].mine.servers[s].inits <= 1
    ensures run[j].mine.servers[s].power != Stopped ==> run[j].mine.servers[s].init.Some?
    ensures run[i].mine.servers[s].init.Some? ==> run[j].mine.servers[s].init == run[i].mine.servers[s].init
    ensures run[j].mine.servers[s].init.Some? ==> run[j].mine.servers[s].init.value.server == s
  {
    RunsFollow(cfg, run, i, j);
    RunsKeepTheInvariant(cfg, run, j);
    assert ServerInvariant(cfg, run[j].mine, s, run[j].mine.servers[s]);
    hide Invariant, IsRun;
  }

  /** A server is only powered on with cloud-init written, a control-plane node
      in the pool and a public IP let in. */
  lemma PowerOnIsReady(cfg: Config, run: seq<Own>, i: nat, s: nat)
    requires IsRun(cfg, run) && i + 1 < |run|
    requires s in run[i].mine.servers && run[i].mine.servers[s].power == Stopped
    requires s in run[i + 1].mine.servers && run[i + 1].mine.servers[s].power == Starting
    ensures run[i].mine.servers[s].init.Some?
    ensures cfg.controlPlane ==> exists a | a in run[i].pooled :: IsNodeIP(cfg, run[i].mine, a)
    ensures forall p | p in run[i].mine.ips ::
              exists id | id in run[i].acls :: run[i].acls[id] == [run[i].mine.ips[p].address]
  {
    var o, p := run[i], run[i + 1];
    assert Step(cfg, o, p);
    hide Invariant, Reachable, Allowed, ApplyMine, HappenMine, MayHappen, IsRun;
    if c :| Allowed(cfg, o, c) && p == Apply(o, c) {
      StartsOnlyWhenReady(cfg, o, c, s);
    } else if e :| MayHappen(o, e) && p == Happen(o, e) {
      NoEventStarts(o.mine, e, s);
    }
  }

  lemma StartsOnlyWhenReady(cfg: Config, o: Own, c: Call, s: nat)
    requires Allowed(cfg, o, c) && s in o.mine.servers && o.mine.servers[s].power == Stopped
    requires s in ApplyMine(o.mine, c).servers && ApplyMine(o.mine, c).servers[s].power == Starting
    ensures o.mine.servers[s].init.Some? && Reachable(cfg, o)
  {
    hide ApplyMine, Reachable, IsNodeIP, IsPublicIP;
    if !c.CreateServer? {
      OnlyPowerOnStarts(o.mine, c, s);
    }
  }

  lemma OnlyPowerOnStarts(mine: Mine, c: Call, s: nat)
    requires s in mine.servers && mine.servers[s].power == Stopped && !c.CreateServer?
    ensures s in ApplyMine(mine, c).servers && ApplyMine(mine, c).servers[s].power == Starting ==> c == PowerOn(s)
  {
    hide Detached, DataVolumes;
  }

  lemma NoEventStarts(mine: Mine, e: Event, s: nat)
    requires s in mine.servers && mine.servers[s].power == Stopped
    ensures s in HappenMine(mine, e).servers ==> HappenMine(mine, e).servers[s].power != Starting
  {
  }

  /** An entry of the pool or of the access-control list exists only while its
      server does; a server goes only after its entries. */
  lemma EntriesGoFirst(cfg: Config, run: seq<Own>, i: nat)
    requires IsRun(cfg, run) && i < |run|
    ensures run[i].pooled != {} || run[i].acls != map[] ==> run[i].mine.servers != map[]
    ensures i + 1 < |run| ==> forall s | s in run[i].mine.servers && s !in run[i + 1].mine.servers ::
              Unlisted(run[i]) && Unlisted(run[i + 1])
  {
    RunsKeepTheInvariant(cfg, run, i);
    if run[i].mine.servers == map[] {
      NothingListedWithoutAServer(cfg, run[i]);
    }
    if i + 1 < |run| {
      assert Step(cfg, run[i], run[i + 1]);
      hide Invariant, Step, IsRun;
      forall s | s in run[i].mine.servers && s !in run[i + 1].mine.servers
          ensures Unlisted(run[i]) && Unlisted(run[i + 1]) {
        GoingServerIsUnlisted(cfg, run[i], run[i + 1], s);
      }
    }
  }

  lemma GoingServerIsUnlisted(cfg: Config, o: Own, p: Own, s: nat)
    requires Invariant(cfg, o) && Step(cfg, o, p) && s in o.mine.servers && s !in p.mine.servers
    ensures Unlisted(o) && Unlisted(p)
  {
    hide MineInvariant, ApplyMine, HappenMine, IsNodeIP, IsPublicIP, Reachable;
    if c :| Allowed(cfg, o, c) && p == Apply(o, c) {
      OnlyDeletingRemoves(o.mine, c, s);
    } else if e :| MayHappen(o, e) && p == Happen(o, e) {
      OnlyVanishingRemoves(o.mine, e, s);
      assert SomeTerminating(o.mine);
    }
  }

  lemma OnlyDeletingRemoves(mine: Mine, c: Call, s: nat)
    requires s in mine.servers
    ensures s !in ApplyMine(mine, c).servers ==> c == DeleteServer(s)
  {
    hide Detached, DataVolumes;
  }

  lemma OnlyVanishingRemoves(mine: Mine, e: Event, s: nat)
    requires s in mine.servers
    ensures s !in HappenMine(mine, e).servers ==> e == Vanishes(s)
  {
  }

  lemma GoingServerHasNoIP(cfg: Config, o: Own, p: Own, s: nat)
    requires Invariant(cfg, o) && Step(cfg, o, p) && s in o.mine.servers && s !in p.mine.servers
    ensures o.mine.ips == map[] && o.mine.teardown
  {
    hide Invariant, Allowed, MayHappen, ApplyMine, HappenMine;
    if c :| Allowed(cfg, o, c) && p == Apply(o, c) {
      OnlyDeletingRemoves(o.mine, c, s);
      MayGoWithoutIP(cfg, o, s);
    } else if e :| MayHappen(o, e) && p == Happen(o, e) {
      OnlyVanishingRemoves(o.mine, e, s);
      VanishingIsTerminating(o, s);
      TerminatingHasNoIP(cfg, o, s);
    }
    NoIPAtAll(cfg, o, s);
  }

  lemma NoIPAtAll(cfg: Config, o: Own, s: nat)
    requires Invariant(cfg, o) && s in o.mine.servers && o.mine.servers[s].ip.None?
    ensures o.mine.ips == map[]
  {
    hide SharedInvariant, VolumesInvariant, BootInvariant, EndInvariant, ListsInvariant, IsNodeIP;
    assert ServerInvariant(cfg, o.mine, s, o.mine.servers[s]);
  }

  lemma TerminatingHasNoIP(cfg: Config, o: Own, s: nat)
    requires Invariant(cfg, o) && s in o.mine.servers && o.mine.servers[s].power == Terminating
    ensures o.mine.servers[s].ip.None? && o.mine.teardown
  {
    hide SharedInvariant, VolumesInvariant, BootInvariant, IPInvariant, ListsInvariant, IsNodeIP, KeepsOut;
    assert ServerInvariant(cfg, o.mine, s, o.mine.servers[s]);
  }

  lemma MayGoWithoutIP(cfg: Config, o: Own, s: nat)
    requires Allowed(cfg, o, DeleteServer(s))
    ensures s in o.mine.servers && o.mine.servers[s].ip.None? && o.mine.teardown
  {
  }

  lemma VanishingIsTerminating(o: Own, s: nat)
    requires MayHappen(o, Vanishes(s))
    ensures s in o.mine.servers && o.mine.servers[s].power == Terminating
  {
  }

  /** Once there was a server, no later state lacks it and still has its IP or
      an entry: a retry that finds no server has nothing left to do. */
  lemma {:induction false} TheServerGoesLast(cfg: Config, run: seq<Own>, i: nat, j: nat)
    requires IsRun(cfg, run) && i <= j < |run|
    requires run[i].mine.servers != map[]
    ensures run[j].mine.servers == map[] ==> run[j].mine.ips == map[] && Unlisted(run[j]) && run[j].mine.teardown
  {
    hide Invariant, Step, IsRun, Follows, Unlisted;
    if i < j {
      TheServerGoesLast(cfg, run, i, j - 1);
      RunsKeepTheInvariant(cfg, run, j - 1);
      RunsFollow(cfg, run, j - 1, j);
      StepOf(cfg, run, j - 1);
      StepGoesLast(cfg, run[j - 1], run[j]);
    }
    RunsKeepTheInvariant(cfg, run, j);
    if run[j].mine.servers == map[] {
      NothingListedWithoutAServer(cfg, run[j]);
    }
  }

  lemma StepOf(cfg: Config, run: seq<Own>, i: nat)
    requires IsRun(cfg, run) && i + 1 < |run|
    ensures Step(cfg, run[i], run[i + 1])
  {
  }

  lemma StepGoesLast(cfg: Config, o: Own, p: Own)
    requires Invariant(cfg, o) && Step(cfg, o, p) && Follows(o, p)
    requires o.mine.servers == map[] ==> o.mine.ips == map[] && o.mine.teardown
    ensures p.mine.servers == map[] ==> p.mine.ips == map[] && p.mine.teardown
  {
    hide Invariant, Step, ServersFollow;
    if p.mine.servers == map[] {
      if s :| s in o.mine.servers {
        GoingServerHasNoIP(cfg, o, p, s);
      }
      assert p.mine.ips == map[] by { assert forall k :: k !in p.mine.ips; }
    }
  }

  /** Every data volume attached when the teardown begins is still there in
      every later state. */
  lemma DataVolumesSurvive(cfg: Config, run: seq<Own>, i: nat, j: nat, v: nat)
    requires IsRun(cfg, run) && i < j < |run|
    requires !run[i].mine.teardown && run[i + 1].mine.teardown
    requires exists s, k :: s in run[i].mine.servers && k in run[i].mine.servers[s].volumes
               && !run[i].mine.servers[s].volumes[k].boot && run[i].mine.servers[s].volumes[k].id == v
    ensures v in run[j].mine.volumes
  {
    assert v in DataVolumes(run[i].mine);
    TeardownRemembers(cfg, run[i], run[i + 1]);
    RunsFollow(cfg, run, i + 1, j);
    RunsKeepTheInvariant(cfg, run, j);
    assert ListsInvariant(cfg, run[j].mine);
    hide IsRun, Invariant;
  }

  lemma TeardownRemembers(cfg: Config, o: Own, p: Own)
    requires Step(cfg, o, p) && !o.mine.teardown && p.mine.teardown
    ensures p.mine.keep == DataVolumes(o.mine)
  {
    hide Allowed, MayHappen, ApplyMine, HappenMine, DataVolumes;
    if c :| Allowed(cfg, o, c) && p == Apply(o, c) {
      OnlyTeardownTearsDown(o.mine, c);
    } else if e :| MayHappen(o, e) && p == Happen(o, e) {
      NoEventTearsDown(o.mine, e);
    }
  }

  lemma OnlyTeardownTearsDown(mine: Mine, c: Call)
    requires !mine.teardown && ApplyMine(mine, c).teardown
    ensures c == BeginTeardown && ApplyMine(mine, c).keep == DataVolumes(mine)
  {
    hide Detached, DataVolumes;
  }

  lemma NoEventTearsDown(mine: Mine, e: Event)
    ensures HappenMine(mine, e).teardown == mine.teardown
  {
  }
}
