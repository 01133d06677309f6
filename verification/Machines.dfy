// The machine reconciler: bring a server up step by step. Every request it
// sends is one that the protocol allows, whatever failed before.
module Machines {
  import opened Wrappers
  import opened Api
  import opened MachineProtocol
  import opened MachineCloud

  // ---- Progress of a pass that brings the machine up ----

  predicate Calm(o: Own, p: Own) {
    && !o.mine.teardown && !p.mine.teardown && (o.lb ==> p.lb)
    && forall s | s in o.mine.servers ::
         && s in p.mine.servers
         && (o.mine.servers[s].power == Stopped ==> p.mine.servers[s].power == Stopped)
         && (o.mine.servers[s].started ==> p.mine.servers[s].started)
  }

  /** What was made stays, and what was stopped is not started. */
  predicate Onward(o: Own, p: Own) {
    Follows(o, p) && Calm(o, p)
  }

  predicate Preparing(c: Call) {
    c.CreateIP? || c.CreateServer? || c.CreateNic? || c.AddPool? || c.CreateAcl? || c.UpdateAcl? || c.SetCloudInit?
  }

  lemma OnwardIsReflexive(o: Own)
    requires !o.mine.teardown
    ensures Onward(o, o)
  {
  }

  lemma OnwardIsTransitive(o: Own, p: Own, q: Own)
    requires Onward(o, p) && Onward(p, q)
    ensures Onward(o, q)
  {
    assert Calm(o, q);
    hide Calm, Follows;
    FollowsIsTransitive(o, p, q);
  }

  lemma NothingLeavesEarly(cfg: Config, o: Own)
    requires Invariant(cfg, o) && !o.mine.teardown
    ensures forall s :: !Leaving(o.mine, s)
  {
    forall s ensures !Leaving(o.mine, s) {
      if s in o.mine.servers { assert ServerInvariant(cfg, o.mine, s, o.mine.servers[s]); }
    }
  }

  lemma DriftGoesOnward(cfg: Config, o: Own, p: Own)
    requires Invariant(cfg, o) && !o.mine.teardown && Drift(o, p)
    ensures Onward(o, p)
  {
    NothingLeavesEarly(cfg, o);
    hide Invariant, Leaving;
    assert Calm(o, p);
    assert ServersFollow(o.mine, p.mine);
    assert AddressesFollow(o.mine, p.mine);
    hide Calm, ServersFollow, AddressesFollow, ServersDrift, NicsDrift;
  }

  lemma PreparingIsCalm(cfg: Config, o: Own, c: Call)
    requires Allowed(cfg, o, c) && Preparing(c)
    ensures Calm(o, Apply(o, c))
  {
    hide IsNodeIP, IsPublicIP;
  }

  lemma RequestGoesOnward(cfg: Config, o: Own, c: Call, p: Own)
    requires Invariant(cfg, o) && Allowed(cfg, o, c) && Preparing(c)
    requires Drift(Apply(o, c), p) || Drift(o, p)
    ensures Onward(o, p)
  {
    hide Invariant, Drift, Calm, Follows, Apply, Allowed;
    PreparingIsCalm(cfg, o, c);
    RequestsFollow(cfg, o, c);
    RequestsKeepTheInvariant(cfg, o, c);
    if Drift(o, p) {
      PreparingComesEarly(o, c);
      DriftGoesOnward(cfg, o, p);
    } else {
      PreparingComesEarly(o, c);
      DriftGoesOnward(cfg, Apply(o, c), p);
      OnwardIsTransitive(o, Apply(o, c), p);
    }
  }

  lemma PreparingComesEarly(o: Own, c: Call)
    requires Calm(o, Apply(o, c))
    ensures !o.mine.teardown && !Apply(o, c).mine.teardown
  {
  }

  // ---- What the pass knows ----

  /** What a pass read about its server is still so. */
  predicate Knows(o: Own, l: Listed) {
    && l.id in o.mine.servers
    && ShowsIP(o.mine, o.mine.servers[l.id], l.publicIP)
    && (l.power == Stopped ==> o.mine.servers[l.id].power == Stopped)
    && (l.power != Stopped ==> o.mine.servers[l.id].started)
  }

  lemma KnowsOnward(cfg: Config, o: Own, p: Own, l: Listed)
    requires Knows(o, l) && Onward(o, p)
    ensures Knows(p, l)
  {
  }

  lemma ShownIsKnown(cfg: Config, o: Own, l: Listed)
    requires Invariant(cfg, o) && Shows(o.mine, l)
    ensures Knows(o, l)
  {
    assert ServerInvariant(cfg, o.mine, l.id, o.mine.servers[l.id]);
  }

  datatype MachineIPs = MachineIPs(internal: Option<string>, external: Option<string>)

  predicate SomeIP(ips: MachineIPs) {
    ips.internal.Some? || ips.external.Some?
  }

  function NodeIP(ips: MachineIPs): string
    requires SomeIP(ips)
  {
    if ips.internal.Some? then ips.internal.value else ips.external.value
  }

  /** The addresses are those of the server: the private one exactly on a
      Private Network, the public one exactly with a public IP. */
  predicate IPsAre(cfg: Config, o: Own, l: Listed, ips: MachineIPs) {
    && SomeIP(ips)
    && (ips.internal.Some? <==> cfg.hasPN) && (ips.internal.Some? ==> IsPrivateIP(o.mine, ips.internal.value))
    && ips.external == (if l.publicIP.Some? then Some(l.publicIP.value.address) else None)
  }

  lemma OnwardFollows(o: Own, p: Own)
    requires Onward(o, p)
    ensures Follows(o, p) && !o.mine.teardown && !p.mine.teardown
  {
  }

  lemma IPsStay(cfg: Config, o: Own, p: Own, l: Listed, ips: MachineIPs)
    requires IPsAre(cfg, o, l, ips) && Follows(o, p) && !p.mine.teardown
    ensures IPsAre(cfg, p, l, ips)
  {
    hide ServersFollow;
    if ips.internal.Some? {
      var n :| n in o.mine.nics && o.mine.nics[n].address == Some(ips.internal.value);
      assert n in p.mine.nics && p.mine.nics[n].address == Some(ips.internal.value);
    }
  }

  lemma KnownNodeIP(cfg: Config, o: Own, l: Listed, ips: MachineIPs)
    requires Knows(o, l) && IPsAre(cfg, o, l, ips)
    ensures IsNodeIP(cfg, o.mine, NodeIP(ips))
    ensures ips.external.Some? ==> IsPublicIP(o.mine, ips.external.value)
  {
  }

  // ---- What a pass can fail for ----

  /** Some state since then had no load balancer. */
  ghost predicate BalancerMissed(before: seq<Own>, log: seq<Own>) {
    exists i: nat :: |before| - 1 <= i < |log| && !log[i].lb
  }

  /** Some state since then had a NIC without an address. */
  ghost predicate AddressMissed(before: seq<Own>, log: seq<Own>) {
    exists i: nat :: |before| - 1 <= i < |log| && Waits(log[i].mine)
  }

  predicate Waits(mine: Mine) {
    exists n | n in mine.nics :: mine.nics[n].address.None?
  }

  lemma BalancerMissedHere(c: MachineCloud)
    requires c.Valid() && !c.own.lb
    ensures BalancerMissed(c.log, c.log)
  {
    hide Invariant;
    assert c.log[|c.log| - 1] == c.own;
  }

  lemma AddressMissedHere(c: MachineCloud)
    requires c.Valid() && Waits(c.own.mine)
    ensures AddressMissed(c.log, c.log)
  {
    hide Invariant, Waits;
    assert c.log[|c.log| - 1] == c.own;
  }

  lemma MissedStays(before: seq<Own>, mid: seq<Own>, log: seq<Own>, longer: seq<Own>)
    requires |before| <= |mid| && Extends(log, longer)
    ensures BalancerMissed(mid, log) ==> BalancerMissed(before, longer)
    ensures AddressMissed(mid, log) ==> AddressMissed(before, longer)
  {
    hide Waits;
    if i: nat :| |mid| - 1 <= i < |log| && !log[i].lb { assert longer[i] == log[i]; }
    if i: nat :| |mid| - 1 <= i < |log| && Waits(log[i].mine) { assert longer[i] == log[i]; }
  }

  /** The errors a pass may end with although every request and lookup succeeded,
      each with what it is due to. */
  ghost predicate Excused(cfg: Config, error: Failure, networkKnown: bool, bootstrapReady: bool, before: seq<Own>,
      log: seq<Own>)
  {
    match error
    case NetworkUnknown => cfg.hasPN && !networkKnown
    case PrivateIPNotFound => cfg.hasPN && AddressMissed(before, log)
    case MachineHasNoIP => !cfg.hasPN && !cfg.needsIP
    case NotFound => BalancerMissed(before, log)
    case BootstrapNotReady => !bootstrapReady
    case _ => false
  }

  lemma IsExcused(cfg: Config, error: Failure, networkKnown: bool, bootstrapReady: bool, before: seq<Own>,
      log: seq<Own>)
    ensures (error == NetworkUnknown && cfg.hasPN && !networkKnown)
            || (error == PrivateIPNotFound && cfg.hasPN && AddressMissed(before, log))
            || (error == MachineHasNoIP && !cfg.hasPN && !cfg.needsIP)
            || (error == NotFound && BalancerMissed(before, log))
            || (error == BootstrapNotReady && !bootstrapReady) ==>
              Excused(cfg, error, networkKnown, bootstrapReady, before, log)
  {
    hide BalancerMissed, AddressMissed;
  }

  // ---- The steps ----

  predicate HasIP(cfg: Config, mine: Mine, ip: Option<nat>) {
    (ip.Some? <==> cfg.needsIP) && (ip.Some? ==> ip.value in mine.ips)
  }

  lemma CreatedIPIsThere(o: Own, id: nat, a: string)
    ensures id in Apply(o, CreateIP(id, a)).mine.ips
  {
  }

  /** One request on the way up. */
  method Prepare(c: MachineCloud, request: Call) returns (ok: bool)
    requires c.Valid() && Allowed(c.cfg, c.own, request) && Preparing(request)
    modifies c`own, c`log, c`failures
    ensures c.Valid() && Extends(old(c.log), c.log) && Onward(old(c.own), c.own)
    ensures ok ==> Drift(Apply(old(c.own), request), c.own)
    ensures c.failures >= old(c.failures) + (if ok then 0 else 1)
  {
    hide Invariant, IsRun, Onward, Drift, Apply, Allowed;
    ok := c.Request(request);
    RequestGoesOnward(c.cfg, old(c.own), request, c.own);
  }

  method GetOrCreateIP(c: MachineCloud) returns (r: Result<Option<nat>, Failure>)
    requires c.Valid() && !c.own.mine.teardown
    modifies c`own, c`log, c`failures
    ensures c.Valid() && Extends(old(c.log), c.log) && Onward(old(c.own), c.own)
    ensures r.Err? ==> r.error == ApiFailure
    ensures r.Ok? ==> HasIP(c.cfg, c.own.mine, r.value)
    ensures c.failures >= old(c.failures) + (if r == Err(ApiFailure) then 1 else 0)
  {
    ghost var o := c.own;
    if !c.cfg.needsIP {
      OnwardIsReflexive(o);
      return Ok(None);
    }
    hide Invariant, IsRun, Onward, Drift, Apply, Allowed;
    var ip := c.FindIP();
    ghost var p := c.own;
    DriftGoesOnward(c.cfg, o, p);
    if ip.Err? {
      return Err(ip.error);
    }
    IPsDriftNot(c.cfg, o, p);
    if ip.value.Some? {
      return ip;
    }
    var id: nat, address: string :| true;
    var created := Prepare(c, CreateIP(id, address));
    OnwardIsTransitive(o, p, c.own);
    CreatedIPIsThere(p, id, address);
    if !created {
      return Err(ApiFailure);
    }
    r := Ok(Some(id));
  }

  lemma IPsDriftNot(cfg: Config, o: Own, p: Own)
    requires Drift(o, p) && !o.mine.teardown
    ensures p.mine.ips == o.mine.ips
    ensures cfg.needsIP && o.mine.ips == map[] ==> forall id, address :: Allowed(cfg, p, CreateIP(id, address))
  {
  }

  lemma CreatedServerIsKnown(cfg: Config, o: Own, id: nat, ip: Option<nat>, boot: nat, p: Own)
    requires HasIP(cfg, o.mine, ip) && Drift(Apply(o, CreateServer(id, ip, boot)), p)
    requires !o.mine.teardown && o.mine.servers == map[]
    ensures ip.Some? ==> ip.value in p.mine.ips
    ensures var public := if ip.None? then None
              else Some(PublicIP(ip.value, p.mine.ips[ip.value].address, p.mine.ips[ip.value].dynamic));
            Knows(p, Listed(id, Stopped, public, map["0" := Volume(boot, true)]))
  {
    hide NicsDrift;
    var q := Apply(o, CreateServer(id, ip, boot));
    assert !Leaving(q.mine, id) && id in q.mine.servers;
    assert id in p.mine.servers && SameButPower(q.mine.servers[id], p.mine.servers[id], false);
  }

  /** getOrCreateServer. The image and the security group are looked up first,
      and may not be found. */
  method GetOrCreateServer(c: MachineCloud, ip: Option<nat>) returns (r: Result<Listed, Failure>)
    requires c.Valid() && !c.own.mine.teardown && HasIP(c.cfg, c.own.mine, ip)
    modifies c`own, c`log, c`failures
    ensures c.Valid() && Extends(old(c.log), c.log) && Onward(old(c.own), c.own)
    ensures r.Err? ==> r.error == ApiFailure
    ensures r.Ok? ==> Knows(c.own, r.value)
    ensures c.failures >= old(c.failures) + (if r == Err(ApiFailure) then 1 else 0)
  {
    hide Invariant, IsRun, Onward, ServersDrift, NicsDrift, Apply, Shows, Knows;
    ghost var o := c.own;
    var server := c.FindServer();
    ghost var p := c.own;
    DriftGoesOnward(c.cfg, o, p);
    if server.Err? {
      return Err(server.error);
    }
    if server.value.Some? {
      ShownIsKnown(c.cfg, o, server.value.value);
      KnowsOnward(c.cfg, o, p, server.value.value);
      return Ok(server.value.value);
    }
    var lookups := c.Ask();
    if !lookups {
      return Err(ApiFailure);
    }
    var id: nat, boot: nat :| true;
    assert p.mine.servers == map[] && !p.mine.teardown by { StillNoServer(o, p); }
    var created := Prepare(c, CreateServer(id, ip, boot));
    OnwardIsTransitive(o, p, c.own);
    if !created {
      return Err(ApiFailure);
    }
    CreatedServerIsKnown(c.cfg, p, id, ip, boot, c.own);
    var public := if ip.None? then None
        else Some(PublicIP(ip.value, c.own.mine.ips[ip.value].address, c.own.mine.ips[ip.value].dynamic));
    r := Ok(Listed(id, Stopped, public, map["0" := Volume(boot, true)]));
  }

  lemma StillNoServer(o: Own, p: Own)
    requires Drift(o, p) && o.mine.servers == map[]
    ensures p.mine.servers == map[]
  {
    assert forall s :: s !in p.mine.servers;
  }

  predicate HasNic(cfg: Config, mine: Mine, server: nat, nic: Option<nat>) {
    (nic.Some? <==> cfg.hasPN) && (nic.Some? ==> nic.value in mine.nics && mine.nics[nic.value].server == server)
  }

  lemma NicMayBeCreated(cfg: Config, o: Own, server: nat, p: Own, id: nat)
    requires Invariant(cfg, o) && !o.mine.teardown && server in o.mine.servers && Drift(o, p) && cfg.hasPN
    requires forall n | n in o.mine.nics :: o.mine.nics[n].server != server
    ensures Allowed(cfg, p, CreateNic(id, server))
  {
    hide Invariant, Drift;
    NoOtherNic(cfg, o, server, p);
    ServerStays(cfg, o, p, server);
  }

  lemma NoOtherNic(cfg: Config, o: Own, server: nat, p: Own)
    requires Invariant(cfg, o) && server in o.mine.servers && Drift(o, p)
    requires forall n | n in o.mine.nics :: o.mine.nics[n].server != server
    ensures p.mine.nics == map[]
  {
    assert forall n :: n !in p.mine.nics by { hide ServerInvariant, ServersDrift; }
  }

  lemma NicStays(cfg: Config, o: Own, server: nat, nic: nat, p: Own)
    requires Invariant(cfg, o) && !o.mine.teardown && Drift(o, p)
    requires nic in o.mine.nics && o.mine.nics[nic].server == server
    ensures nic in p.mine.nics && p.mine.nics[nic].server == server
  {
    NothingLeavesEarly(cfg, o);
  }

  lemma CreatedNicIsThere(o: Own, id: nat, server: nat, p: Own)
    requires Drift(Apply(o, CreateNic(id, server)), p)
    requires server in o.mine.servers && o.mine.servers[server].power != Terminating
    ensures id in p.mine.nics && p.mine.nics[id].server == server
  {
    var q := Apply(o, CreateNic(id, server));
    assert id in q.mine.nics && !Leaving(q.mine, server);
  }

  /** getOrCreatePrivateNIC. The network's ID comes from the status of the cluster,
      which may not hold it. */
  method GetOrCreatePrivateNic(c: MachineCloud, server: Listed, networkKnown: bool)
      returns (r: Result<Option<nat>, Failure>)
    requires c.Valid() && !c.own.mine.teardown && Knows(c.own, server)
    modifies c`own, c`log, c`failures
    ensures c.Valid() && Extends(old(c.log), c.log) && Onward(old(c.own), c.own)
    ensures r.Err? ==> r.error == ApiFailure || (r.error == NetworkUnknown && c.cfg.hasPN && !networkKnown)
    ensures r.Ok? ==> HasNic(c.cfg, c.own.mine, server.id, r.value) && (c.cfg.hasPN ==> networkKnown)
    ensures c.failures >= old(c.failures) + (if r == Err(ApiFailure) then 1 else 0)
  {
    ghost var o := c.own;
    OnwardIsReflexive(o);
    assert server.id in o.mine.servers;
    hide Invariant, IsRun, Onward, Drift, Apply, Knows, Allowed;
    if !c.cfg.hasPN {
      return Ok(None);
    }
    if !networkKnown {
      return Err(NetworkUnknown);
    }
    var nic := c.FindNic(server.id);
    ghost var p := c.own;
    DriftGoesOnward(c.cfg, o, p);
    if nic.Err? {
      return Err(nic.error);
    }
    if nic.value.Some? {
      NicStays(c.cfg, o, server.id, nic.value.value, p);
      return nic;
    }
    var id: nat :| true;
    NicMayBeCreated(c.cfg, o, server.id, p, id);
    ServerStays(c.cfg, o, p, server.id);
    var created := Prepare(c, CreateNic(id, server.id));
    OnwardIsTransitive(o, p, c.own);
    if created { CreatedNicIsThere(p, id, server.id, c.own); }
    r := if created then Ok(Some(id)) else Err(ApiFailure);
  }

  lemma ServerStays(cfg: Config, o: Own, p: Own, s: nat)
    requires Invariant(cfg, o) && !o.mine.teardown && Drift(o, p) && s in o.mine.servers
    ensures !p.mine.teardown && s in p.mine.servers && p.mine.servers[s].power != Terminating
  {
    NothingLeavesEarly(cfg, o);
    assert !Leaving(o.mine, s);
  }

  /** getMachineIPs. An address of the NIC that is not assigned yet is an error
      of its own; no address at all is another. */
  method GetMachineIPs(c: MachineCloud, server: Listed, nic: Option<nat>) returns (r: Result<MachineIPs, Failure>)
    requires c.Valid()
    modifies c`own, c`log, c`failures
    ensures c.Valid() && Extends(old(c.log), c.log) && Drift(old(c.own), c.own)
    ensures r.Err? ==>
              r.error == ApiFailure || (r.error == PrivateIPNotFound && nic.Some?)
              || (r.error == MachineHasNoIP && nic.None? && server.publicIP.None?)
    ensures r.Err? && r.error == PrivateIPNotFound && nic.value in old(c.own).mine.nics ==>
              old(c.own).mine.nics[nic.value].address.None?
    ensures r.Ok? ==> SomeIP(r.value) && (r.value.internal.Some? <==> nic.Some?)
    ensures r.Ok? ==> r.value.external == (if server.publicIP.Some? then Some(server.publicIP.value.address) else None)
    ensures r.Ok? && nic.Some? ==>
              nic.value in old(c.own).mine.nics && old(c.own).mine.nics[nic.value].address == r.value.internal
    ensures c.failures >= old(c.failures) + (if r == Err(ApiFailure) then 1 else 0)
  {
    hide Invariant, IsRun, Drift;
    DriftIsReflexive(c.own);
    var internal: Option<string> := None;
    if nic.Some? {
      var address := c.FindAddress(nic.value);
      if address.Err? {
        return Err(address.error);
      }
      if address.value.None? {
        return Err(PrivateIPNotFound);
      }
      internal := address.value;
    }
    var external := if server.publicIP.Some? then Some(server.publicIP.value.address) else None;
    if external.None? && internal.None? {
      return Err(MachineHasNoIP);
    }
    r := Ok(MachineIPs(internal, external));
  }

  lemma ReadIPsAre(cfg: Config, o: Own, server: Listed, nic: Option<nat>, ips: MachineIPs, p: Own)
    requires Invariant(cfg, o) && !o.mine.teardown && Drift(o, p) && HasNic(cfg, o.mine, server.id, nic)
    requires SomeIP(ips) && (ips.internal.Some? <==> nic.Some?)
    requires ips.external == (if server.publicIP.Some? then Some(server.publicIP.value.address) else None)
    requires nic.Some? ==> o.mine.nics[nic.value].address == ips.internal
    ensures IPsAre(cfg, p, server, ips)
  {
    hide Invariant, Drift;
    DriftGoesOnward(cfg, o, p);
    IPsStay(cfg, o, p, server, ips);
  }

  /** ensureControlPlaneLoadBalancer on the way up: the node's address is in the pool. */
  method EnsureInPool(c: MachineCloud, server: Listed, ips: MachineIPs) returns (r: Result<(), Failure>)
    requires c.Valid() && !c.own.mine.teardown && Knows(c.own, server) && IPsAre(c.cfg, c.own, server, ips)
    modifies c`own, c`log, c`failures
    ensures c.Valid() && Extends(old(c.log), c.log) && Onward(old(c.own), c.own)
    ensures r.Ok? && c.cfg.controlPlane ==> NodeIP(ips) in c.own.pooled
    ensures r.Err? ==> r.error == ApiFailure || r.error == NotFound
    ensures c.failures >= old(c.failures) + (if r == Err(ApiFailure) then 1 else 0)
    ensures r == Err(NotFound) ==> BalancerMissed(old(c.log), c.log)
  {
    hide Invariant, IsRun, Onward, Drift, Apply, Knows, IPsAre, Allowed, BalancerMissed, AddressMissed;
    ghost var o, log := c.own, c.log;
    OnwardIsReflexive(o);
    if !o.lb { BalancerMissedHere(c); }
    if !c.cfg.controlPlane {
      return Ok(());
    }
    assert SomeIP(ips) by { SomeIPOf(c.cfg, o, server, ips); }
    var pool := c.FindPool();
    ghost var p := c.own;
    DriftGoesOnward(c.cfg, o, p);
    PoolDriftsNot(o, p);
    MissedStays(log, log, log, c.log);
    if pool.Err? || NodeIP(ips) in pool.value {
      return if pool.Err? then Err(pool.error) else Ok(());
    }
    KnowsOnward(c.cfg, o, p, server);
    OnwardFollows(o, p);
    IPsStay(c.cfg, o, p, server, ips);
    PoolMayBeJoined(c.cfg, p, server, ips);
    var added := Prepare(c, AddPool(NodeIP(ips)));
    OnwardIsTransitive(o, p, c.own);
    if added { PoolIsJoined(p, NodeIP(ips), c.own); }
    r := if added then Ok(()) else Err(ApiFailure);
  }

  lemma SomeIPOf(cfg: Config, o: Own, server: Listed, ips: MachineIPs)
    requires IPsAre(cfg, o, server, ips)
    ensures SomeIP(ips)
  {
  }

  lemma PoolDriftsNot(o: Own, p: Own)
    requires Drift(o, p) && !o.mine.teardown
    ensures p.pooled == o.pooled && p.acls == o.acls && (o.lb ==> p.lb) && !p.mine.teardown
  {
  }

  lemma PoolMayBeJoined(cfg: Config, o: Own, server: Listed, ips: MachineIPs)
    requires cfg.controlPlane && o.lb && !o.mine.teardown && Knows(o, server) && IPsAre(cfg, o, server, ips)
    ensures Allowed(cfg, o, AddPool(NodeIP(ips)))
  {
    KnownNodeIP(cfg, o, server, ips);
  }

  lemma PoolIsJoined(o: Own, a: string, p: Own)
    requires Drift(Apply(o, AddPool(a)), p) && !o.mine.teardown
    ensures a in p.pooled
  {
  }

  /** The public IP of the machine is let in. */
  predicate LetIn(o: Own, a: string) {
    exists id | id in o.acls :: o.acls[id] == [a]
  }

  /** ensureLoadBalancerACL. With an address the machine's entry names it, and an
      existing entry is rewritten every time; without one there is no entry. */
  method EnsureLoadBalancerACL(c: MachineCloud, publicIP: Option<string>) returns (r: Result<(), Failure>)
    requires c.Valid() && !c.own.mine.teardown && (publicIP.Some? ==> IsPublicIP(c.own.mine, publicIP.value))
    requires publicIP.None? ==> c.own.acls == map[]
    modifies c`own, c`log, c`failures
    ensures c.Valid() && Extends(old(c.log), c.log) && Onward(old(c.own), c.own)
    ensures r.Ok? && publicIP.Some? ==> LetIn(c.own, publicIP.value)
    ensures r.Err? ==> r.error == ApiFailure || r.error == NotFound
    ensures c.failures >= old(c.failures) + (if r == Err(ApiFailure) then 1 else 0)
    ensures r == Err(NotFound) ==> BalancerMissed(old(c.log), c.log)
  {
    hide Invariant, IsRun, Onward, Drift, Apply, Allowed, IsPublicIP, BalancerMissed, AddressMissed, LetIn;
    ghost var o, log := c.own, c.log;
    if !o.lb { BalancerMissedHere(c); }
    var frontend := c.FindFrontend();
    MissedStays(log, log, log, c.log);
    ghost var p := c.own;
    DriftGoesOnward(c.cfg, o, p);
    PoolDriftsNot(o, p);
    if frontend.Err? {
      return Err(frontend.error);
    }
    var acl := c.FindAcl();
    ghost var q := c.own;
    DriftGoesOnward(c.cfg, p, q);
    PoolDriftsNot(p, q);
    OnwardIsTransitive(o, p, q);
    if acl.Err? {
      return Err(acl.error);
    }
    if publicIP.None? {
      assert acl.value.None?;
      return Ok(());
    }
    PublicIPStays(o, p, publicIP.value);
    PublicIPStays(p, q, publicIP.value);
    var request: Call;
    if acl.value.None? {
      var id: nat :| true;
      request := CreateAcl(id, publicIP.value);
    } else {
      request := UpdateAcl(acl.value.value, publicIP.value);
    }
    EntryMayBeWritten(c.cfg, q, request, publicIP.value);
    var written := Prepare(c, request);
    OnwardIsTransitive(o, q, c.own);
    if !written {
      return Err(ApiFailure);
    }
    EntryIsWritten(q, request, publicIP.value, c.own);
    r := Ok(());
  }

  lemma PublicIPStays(o: Own, p: Own, a: string)
    requires Onward(o, p) && IsPublicIP(o.mine, a)
    ensures IsPublicIP(p.mine, a)
  {
    var s :| s in o.mine.servers && o.mine.servers[s].ip.Some? && o.mine.servers[s].ip.value in o.mine.ips
        && o.mine.ips[o.mine.servers[s].ip.value].address == a;
    assert s in p.mine.servers && p.mine.servers[s].ip == o.mine.servers[s].ip;
  }

  lemma EntryMayBeWritten(cfg: Config, o: Own, request: Call, a: string)
    requires o.lb && !o.mine.teardown && IsPublicIP(o.mine, a)
    requires (request.CreateAcl? && request.address == a && o.acls == map[])
              || (request.UpdateAcl? && request.address == a && request.id in o.acls)
    ensures Allowed(cfg, o, request)
  {
  }

  lemma EntryIsWritten(o: Own, request: Call, a: string, p: Own)
    requires (request.CreateAcl? || request.UpdateAcl?) && request.address == a
    requires Drift(Apply(o, request), p) && !o.mine.teardown
    ensures LetIn(p, a)
  {
    assert p.acls[request.id] == [a];
  }

  /** ensureCloudInit: afterwards a stopped server has its cloud-init, naming
      the node's address and the server. */
  method EnsureCloudInit(c: MachineCloud, server: Listed, ips: MachineIPs, bootstrapReady: bool)
      returns (r: Result<(), Failure>)
    requires c.Valid() && !c.own.mine.teardown && Knows(c.own, server) && IPsAre(c.cfg, c.own, server, ips)
    modifies c`own, c`log, c`failures
    ensures c.Valid() && Extends(old(c.log), c.log) && Onward(old(c.own), c.own)
    ensures r.Ok? && server.power == Stopped ==>
              server.id in c.own.mine.servers && c.own.mine.servers[server.id].init.Some?
    ensures r.Err? ==> r.error == ApiFailure || (r.error == BootstrapNotReady && !bootstrapReady)
    ensures c.failures >= old(c.failures) + (if r == Err(ApiFailure) then 1 else 0)
  {
    OnwardIsReflexive(c.own);
    hide Invariant, IsRun, Onward, Drift, Apply, Knows, IPsAre, Allowed;
    if server.power != Stopped {
      return Ok(());
    }
    ghost var o := c.own;
    var present := c.HasCloudInit(server.id);
    ghost var p := c.own;
    DriftGoesOnward(c.cfg, o, p);
    KnowsOnward(c.cfg, o, p, server);
    if present.Err? {
      return Err(present.error);
    }
    CloudInitDriftsNot(o, p, server);
    if present.value {
      return Ok(());
    }
    OnwardFollows(o, p);
    IPsStay(c.cfg, o, p, server, ips);
    r := WriteCloudInit(c, server, ips, bootstrapReady);
    OnwardIsTransitive(o, p, c.own);
  }

  /** The branch of ensureCloudInit that renders and stores the data. */
  method WriteCloudInit(c: MachineCloud, server: Listed, ips: MachineIPs, bootstrapReady: bool)
      returns (r: Result<(), Failure>)
    requires c.Valid() && !c.own.mine.teardown && Knows(c.own, server) && IPsAre(c.cfg, c.own, server, ips)
    requires server.power == Stopped && c.own.mine.servers[server.id].init.None?
    modifies c`own, c`log, c`failures
    ensures c.Valid() && Extends(old(c.log), c.log) && Onward(old(c.own), c.own)
    ensures r.Ok? ==> server.id in c.own.mine.servers && c.own.mine.servers[server.id].init.Some?
    ensures r.Err? ==> r.error == ApiFailure || (r.error == BootstrapNotReady && !bootstrapReady)
    ensures c.failures >= old(c.failures) + (if r == Err(ApiFailure) then 1 else 0)
  {
    OnwardIsReflexive(c.own);
    hide Invariant, IsRun, Onward, Drift, Apply, Knows, IPsAre, Allowed;
    SomeIPOf(c.cfg, c.own, server, ips);
    var rendered := c.Ask();
    if !bootstrapReady || !rendered {
      return Err(if bootstrapReady then ApiFailure else BootstrapNotReady);
    }
    ghost var p := c.own;
    CloudInitMayBeSet(c.cfg, p, server, ips);
    var stored := Prepare(c, SetCloudInit(server.id, CloudInit(NodeIP(ips), server.id)));
    if !stored {
      return Err(ApiFailure);
    }
    CloudInitIsSet(c.cfg, p, server, NodeIP(ips), c.own);
    r := Ok(());
  }

  lemma CloudInitDriftsNot(o: Own, p: Own, server: Listed)
    requires Drift(o, p) && !o.mine.teardown && server.id in o.mine.servers && Knows(p, server)
    ensures p.mine.servers[server.id].init == o.mine.servers[server.id].init && !p.mine.teardown
  {
  }

  lemma CloudInitMayBeSet(cfg: Config, o: Own, server: Listed, ips: MachineIPs)
    requires !o.mine.teardown && Knows(o, server) && IPsAre(cfg, o, server, ips)
    requires server.power == Stopped && o.mine.servers[server.id].init.None?
    ensures Allowed(cfg, o, SetCloudInit(server.id, CloudInit(NodeIP(ips), server.id)))
  {
    KnownNodeIP(cfg, o, server, ips);
  }

  lemma CloudInitIsSet(cfg: Config, o: Own, server: Listed, nodeIP: string, p: Own)
    requires Knows(o, server) && Drift(Apply(o, SetCloudInit(server.id, CloudInit(nodeIP, server.id))), p)
              && server.power == Stopped
    ensures server.id in p.mine.servers && p.mine.servers[server.id].init.Some?
  {
    var q := Apply(o, SetCloudInit(server.id, CloudInit(nodeIP, server.id)));
    assert server.id in q.mine.servers && !Leaving(q.mine, server.id);
    assert SameButPower(q.mine.servers[server.id], p.mine.servers[server.id], q.mine.teardown);
  }

  /** ensureServerStarted: powers a stopped server on, and only when it is ready. */
  method EnsureServerStarted(c: MachineCloud, server: Listed) returns (r: Result<(), Failure>)
    requires c.Valid() && !c.own.mine.teardown && Knows(c.own, server)
    requires server.power == Stopped ==> c.own.mine.servers[server.id].init.Some? && Reachable(c.cfg, c.own)
    modifies c`own, c`log, c`failures
    ensures c.Valid() && Extends(old(c.log), c.log) && Follows(old(c.own), c.own) && !c.own.mine.teardown
    ensures c.own.pooled == old(c.own).pooled && c.own.acls == old(c.own).acls
    ensures r.Ok? ==> server.id in c.own.mine.servers && c.own.mine.servers[server.id].started
    ensures r.Err? ==> r.error == ApiFailure
    ensures c.failures >= old(c.failures) + (if r == Err(ApiFailure) then 1 else 0)
  {
    OnwardIsReflexive(c.own);
    if server.power != Stopped {
      return Ok(());
    }
    ghost var o := c.own;
    assert Allowed(c.cfg, o, PowerOn(server.id)) by { hide Reachable; }
    hide Invariant, IsRun, Follows, Drift, Apply, Knows, Allowed, Reachable;
    var ok := c.Request(PowerOn(server.id));
    PoweringOnFollows(c.cfg, o, server.id, c.own);
    if ok { PoweredOn(c.cfg, o, server.id, c.own); }
    r := if ok then Ok(()) else Err(ApiFailure);
  }

  lemma PoweringOnFollows(cfg: Config, o: Own, s: nat, p: Own)
    requires Invariant(cfg, o) && Allowed(cfg, o, PowerOn(s)) && (Drift(Apply(o, PowerOn(s)), p) || Drift(o, p))
    ensures Follows(o, p) && !p.mine.teardown && p.pooled == o.pooled && p.acls == o.acls
  {
    var q := Apply(o, PowerOn(s));
    assert !o.mine.teardown && !q.mine.teardown && q.pooled == o.pooled && q.acls == o.acls by {
      hide Invariant, Reachable;
    }
    hide Invariant, Allowed, Apply, Drift, Follows;
    RequestsKeepTheInvariant(cfg, o, PowerOn(s));
    RequestsFollow(cfg, o, PowerOn(s));
    if Drift(o, p) {
      DriftGoesOnward(cfg, o, p);
      PoolDriftsNot(o, p);
    } else {
      DriftGoesOnward(cfg, q, p);
      PoolDriftsNot(q, p);
      FollowsIsTransitive(o, q, p);
    }
  }

  lemma PoweredOn(cfg: Config, o: Own, s: nat, p: Own)
    requires Invariant(cfg, o) && Allowed(cfg, o, PowerOn(s)) && Drift(Apply(o, PowerOn(s)), p)
    ensures s in p.mine.servers && p.mine.servers[s].started
  {
    hide Invariant, Reachable;
    var q := Apply(o, PowerOn(s));
    assert !Leaving(q.mine, s);
    assert SameButPower(q.mine.servers[s], p.mine.servers[s], q.mine.teardown);
  }

  /** An entry that lets the public IP in stays, whatever rewrites it. */
  lemma LetInStays(cfg: Config, o: Own, p: Own, a: string)
    requires Invariant(cfg, p) && Follows(o, p) && !p.mine.teardown && LetIn(o, a) && IsPublicIP(p.mine, a)
    ensures LetIn(p, a)
  {
    hide ServerInvariant, ServersFollow, AddressesFollow;
    var id :| id in o.acls && o.acls[id] == [a];
    assert id in p.acls && IsPublicIP(p.mine, p.acls[id][0]);
    assert p.acls[id][0] == a;
    assert p.acls[id] == [a];
  }

  lemma NoPublicIPNoEntry(cfg: Config, o: Own, server: Listed)
    requires Invariant(cfg, o) && Knows(o, server) && server.publicIP.None?
    ensures o.acls == map[]
  {
    hide ServerInvariant;
    assert forall a :: !IsPublicIP(o.mine, a);
    assert forall id :: id !in o.acls;
  }

  /** Everything a power-on needs has been done. */
  lemma ReadyToStart(cfg: Config, o: Own, server: Listed, ips: MachineIPs)
    requires Invariant(cfg, o) && !o.mine.teardown && Knows(o, server) && IPsAre(cfg, o, server, ips)
    requires cfg.controlPlane ==> NodeIP(ips) in o.pooled
    requires ips.external.Some? ==> LetIn(o, ips.external.value)
    ensures Reachable(cfg, o)
  {
    KnownNodeIP(cfg, o, server, ips);
    assert ServerInvariant(cfg, o.mine, server.id, o.mine.servers[server.id]);
    hide VolumesInvariant, BootInvariant, EndInvariant, IsNodeIP;
  }

  datatype Reconciled = Reconciled(server: nat, external: Option<string>, internal: Option<string>)

  /** What a successful pass leaves: one server, started after its cloud-init was
      written, with its addresses, its place in the pool and its entry. */
  predicate IsUp(cfg: Config, o: Own, up: Reconciled) {
    && o.mine.servers.Keys == {up.server}
    && o.mine.servers[up.server].started && o.mine.servers[up.server].init.Some?
    && o.mine.servers[up.server].init.value.server == up.server
    && IsNodeIP(cfg, o.mine, o.mine.servers[up.server].init.value.nodeIP)
    && (up.external.Some? <==> cfg.needsIP) && (up.internal.Some? <==> cfg.hasPN)
    && (up.external.Some? ==> IsPublicIP(o.mine, up.external.value) && LetIn(o, up.external.value))
    && (up.internal.Some? ==> IsPrivateIP(o.mine, up.internal.value))
    && (cfg.controlPlane ==> exists a | a in o.pooled :: IsNodeIP(cfg, o.mine, a))
  }

  lemma StartedIsUp(cfg: Config, o: Own, p: Own, server: Listed, ips: MachineIPs)
    requires Invariant(cfg, o) && Invariant(cfg, p) && !o.mine.teardown && !p.mine.teardown && Follows(o, p)
    requires Knows(o, server) && IPsAre(cfg, o, server, ips)
    requires cfg.controlPlane ==> NodeIP(ips) in o.pooled
    requires ips.external.Some? ==> LetIn(o, ips.external.value)
    requires p.pooled == o.pooled && p.acls == o.acls
    requires server.id in p.mine.servers && p.mine.servers[server.id].started
    ensures IsUp(cfg, p, Reconciled(server.id, ips.external, ips.internal))
  {
    KnownNodeIP(cfg, o, server, ips);
    IPsStay(cfg, o, p, server, ips);
    assert ServerInvariant(cfg, p.mine, server.id, p.mine.servers[server.id]);
    assert p.mine.servers.Keys == {server.id} by { hide ServerInvariant; }
    assert Knows(p, server.(power := Running));
    KnownNodeIP(cfg, p, server.(power := Running), ips);
    hide IsNodeIP, VolumesInvariant, EndInvariant, IsPublicIP, IsPrivateIP, Follows;
  }

  /** Reconcile, for a machine whose teardown has not begun. It can fail at any
      request; whatever earlier passes left, success means the machine is up. */
  method Reconcile(c: MachineCloud, networkKnown: bool, bootstrapReady: bool) returns (r: Result<Reconciled, Failure>)
    requires c.Valid() && !c.own.mine.teardown
    modifies c`own, c`log, c`failures
    ensures c.Valid() && Extends(old(c.log), c.log) && Follows(old(c.own), c.own) && !c.own.mine.teardown
    ensures r.Ok? ==> IsUp(c.cfg, c.own, r.value) && (c.cfg.hasPN ==> networkKnown)
    ensures r.Err? ==> r.error != TooManyItems
    ensures r.Err? && r.error == PrivateIPNotFound ==> c.cfg.hasPN
    ensures r.Err? && r.error == BootstrapNotReady ==> !bootstrapReady
    ensures c.failures >= old(c.failures) + (if r == Err(ApiFailure) then 1 else 0)
    ensures r.Err? ==> r.error == ApiFailure || Excused(c.cfg, r.error, networkKnown, bootstrapReady, old(c.log), c.log)
    ensures r.Ok? ==> c.cfg.hasPN || c.cfg.needsIP
  {
    hide Invariant, IsRun, Onward, Drift, Follows, IsUp, IPsAre, Knows, HasIP, HasNic, BalancerMissed, AddressMissed;
    ghost var o, log := c.own, c.log;
    var ip := GetOrCreateIP(c);
    ghost var o1 := c.own;
    OnwardFollows(o, o1);
    if ip.Err? { return Err(ip.error); }
    var server := GetOrCreateServer(c, ip.value);
    ghost var o2 := c.own;
    OnwardIsTransitive(o, o1, o2);
    OnwardFollows(o, o2);
    if server.Err? { return Err(server.error); }
    ghost var mid := c.log;
    r := Bring(c, server.value, networkKnown, bootstrapReady);
    MissedStays(log, mid, c.log, c.log);
    FollowsIsTransitive(o, o2, c.own);
  }

  lemma WaitsFor(mine: Mine, nic: nat)
    requires nic in mine.nics && mine.nics[nic].address.None?
    ensures Waits(mine)
  {
  }

  /** A server has a public IP exactly if its machine needs one. */
  lemma NoNetworkNoIP(cfg: Config, o: Own, server: Listed)
    requires Invariant(cfg, o) && !o.mine.teardown && Knows(o, server)
    ensures server.publicIP.Some? <==> cfg.needsIP
  {
    assert ServerInvariant(cfg, o.mine, server.id, o.mine.servers[server.id]);
  }

  /** The part of Reconcile from the server on. */
  method Bring(c: MachineCloud, server: Listed, networkKnown: bool, bootstrapReady: bool)
      returns (r: Result<Reconciled, Failure>)
    requires c.Valid() && !c.own.mine.teardown && Knows(c.own, server)
    modifies c`own, c`log, c`failures
    ensures c.Valid() && Extends(old(c.log), c.log) && Follows(old(c.own), c.own) && !c.own.mine.teardown
    ensures r.Ok? ==> IsUp(c.cfg, c.own, r.value) && (c.cfg.hasPN ==> networkKnown)
    ensures r.Err? ==> r.error != TooManyItems
    ensures r.Err? && r.error == PrivateIPNotFound ==> c.cfg.hasPN
    ensures r.Err? && r.error == BootstrapNotReady ==> !bootstrapReady
    ensures c.failures >= old(c.failures) + (if r == Err(ApiFailure) then 1 else 0)
    ensures r.Err? ==> r.error == ApiFailure || Excused(c.cfg, r.error, networkKnown, bootstrapReady, old(c.log), c.log)
    ensures r.Ok? ==> c.cfg.hasPN || c.cfg.needsIP
  {
    hide IsRun, Onward, Drift, Follows, IsUp, IPsAre, BalancerMissed, AddressMissed, Waits, Invariant, Knows, Excused;
    NoNetworkNoIP(c.cfg, c.own, server);
    ghost var o, log := c.own, c.log;
    var nic := GetOrCreatePrivateNic(c, server, networkKnown);
    ghost var o1 := c.own;
    OnwardFollows(o, o1);
    KnowsOnward(c.cfg, o, o1, server);
    if nic.Err? {
      IsExcused(c.cfg, nic.error, networkKnown, bootstrapReady, log, c.log);
      return Err(nic.error);
    }
    ghost var mid := c.log;
    if nic.value.Some? && o1.mine.nics[nic.value.value].address.None? {
      WaitsFor(o1.mine, nic.value.value);
      AddressMissedHere(c);
    }
    var ips := GetMachineIPs(c, server, nic.value);
    MissedStays(log, mid, mid, c.log);
    ghost var o2 := c.own;
    DriftGoesOnward(c.cfg, o1, o2);
    OnwardIsTransitive(o, o1, o2);
    OnwardFollows(o, o2);
    if ips.Err? {
      IsExcused(c.cfg, ips.error, networkKnown, bootstrapReady, log, c.log);
      return Err(ips.error);
    }
    KnowsOnward(c.cfg, o1, o2, server);
    ReadIPsAre(c.cfg, o1, server, nic.value, ips.value, o2);
    ghost var late := c.log;
    r := Admit(c, server, ips.value, bootstrapReady);
    MissedStays(log, late, c.log, c.log);
    if r.Err? { IsExcused(c.cfg, r.error, networkKnown, bootstrapReady, log, c.log); }
    FollowsIsTransitive(o, o2, c.own);
  }

  /** The part of Reconcile from the load balancer on. */
  method Admit(c: MachineCloud, server: Listed, ips: MachineIPs, bootstrapReady: bool)
      returns (r: Result<Reconciled, Failure>)
    requires c.Valid() && !c.own.mine.teardown && Knows(c.own, server) && IPsAre(c.cfg, c.own, server, ips)
    modifies c`own, c`log, c`failures
    ensures c.Valid() && Extends(old(c.log), c.log) && Follows(old(c.own), c.own) && !c.own.mine.teardown
    ensures r.Ok? ==> IsUp(c.cfg, c.own, r.value)
    ensures r.Err? ==> r.error != TooManyItems && r.error != PrivateIPNotFound
    ensures r.Err? && r.error == BootstrapNotReady ==> !bootstrapReady
    ensures c.failures >= old(c.failures) + (if r == Err(ApiFailure) then 1 else 0)
    ensures r == Err(NotFound) ==> BalancerMissed(old(c.log), c.log)
    ensures r.Err? ==> r.error == ApiFailure || r.error == NotFound || (r.error == BootstrapNotReady && !bootstrapReady)
  {
    hide Invariant, IsRun, Onward, Drift, Follows, IsUp, IPsAre, Knows, LetIn, Reachable, BalancerMissed, AddressMissed;
    ghost var o, log := c.own, c.log;
    SomeIPOf(c.cfg, o, server, ips);
    var pool := EnsureInPool(c, server, ips);
    ghost var o1 := c.own;
    OnwardFollows(o, o1);
    if pool.Err? { return Err(pool.error); }
    ghost var mid := c.log;
    CarryOver(c.cfg, o, o1, server, ips);
    KnownNodeIP(c.cfg, o1, server, ips);
    var acl := EnsureLoadBalancerACL(c, ips.external);
    ghost var o2 := c.own;
    OnwardIsTransitive(o, o1, o2);
    OnwardFollows(o, o2);
    MissedStays(log, mid, c.log, c.log);
    if acl.Err? { return Err(acl.error); }
    CarryOver(c.cfg, o1, o2, server, ips);
    r := Start(c, server, ips, bootstrapReady);
    FollowsIsTransitive(o, o2, c.own);
  }

  lemma CarryOver(cfg: Config, o: Own, p: Own, server: Listed, ips: MachineIPs)
    requires Invariant(cfg, p) && Onward(o, p) && Knows(o, server) && IPsAre(cfg, o, server, ips)
    ensures Knows(p, server) && IPsAre(cfg, p, server, ips)
    ensures o.pooled <= p.pooled
    ensures ips.external.Some? && LetIn(o, ips.external.value) ==> LetIn(p, ips.external.value)
    ensures ips.external.None? ==> p.acls == map[]
  {
    KnowsOnward(cfg, o, p, server);
    IPsStay(cfg, o, p, server, ips);
    KnownNodeIP(cfg, p, server, ips);
    if ips.external.None? {
      NoPublicIPNoEntry(cfg, p, server);
    } else if LetIn(o, ips.external.value) {
      LetInStays(cfg, o, p, ips.external.value);
    }
    hide Calm, ServersFollow, AddressesFollow, Knows, IPsAre, Invariant;
  }

  /** The part of Reconcile that writes cloud-init and powers on. */
  method Start(c: MachineCloud, server: Listed, ips: MachineIPs, bootstrapReady: bool)
      returns (r: Result<Reconciled, Failure>)
    requires c.Valid() && !c.own.mine.teardown && Knows(c.own, server) && IPsAre(c.cfg, c.own, server, ips)
    requires c.cfg.controlPlane ==> NodeIP(ips) in c.own.pooled
    requires ips.external.Some? ==> LetIn(c.own, ips.external.value)
    modifies c`own, c`log, c`failures
    ensures c.Valid() && Extends(old(c.log), c.log) && Follows(old(c.own), c.own) && !c.own.mine.teardown
    ensures r.Ok? ==> IsUp(c.cfg, c.own, r.value)
    ensures r.Err? ==> r.error == ApiFailure || (r.error == BootstrapNotReady && !bootstrapReady)
    ensures c.failures >= old(c.failures) + (if r == Err(ApiFailure) then 1 else 0)
  {
    hide Invariant, IsRun, Onward, Drift, Follows, IsUp, IPsAre, Knows, LetIn, Reachable;
    ghost var o := c.own;
    var stored := EnsureCloudInit(c, server, ips, bootstrapReady);
    ghost var p := c.own;
    OnwardFollows(o, p);
    if stored.Err? { return Err(stored.error); }
    CarryOver(c.cfg, o, p, server, ips);
    ReadyToStart(c.cfg, p, server, ips);
    var started := EnsureServerStarted(c, server);
    FollowsIsTransitive(o, p, c.own);
    if started.Err? { return Err(started.error); }
    StartedIsUp(c.cfg, p, c.own, server, ips);
    r := Ok(Reconciled(server.id, ips.external, ips.internal));
  }
}
