// The services of a cluster pass: Private Network, gateway and load balancer,
// created in that order and deleted in the opposite one.
module ClusterPass {
  import opened Wrappers
  import opened Api
  import opened ClusterCloud
  import AC = AccessControl
  import AclPass
  import Scope
  import SecurityRules
  import LB = LoadBalancing

  // ---- What stands in the way of a pass ----

  /** The supplied gateway IP is not in the zone, or another gateway uses it. */
  predicate NoFreeGatewayIP(env: Env, st: State, zone: string) {
    && env.gatewayIP.Some?
    && forall i | i in st.gatewayIPs && i in env.theirs.gatewayIPs
        && st.gatewayIPs[i] == Ip(zone, env.gatewayIP.value) ::
         !FreeGatewayIP(st.gateways, i)
  }

  /** The supplied IP of the load balancer is not in the zone. */
  predicate NoLbIP(env: Env, st: State, zone: string) {
    env.lbIP.Some? && forall i | i in st.lbIPs && i in env.theirs.lbIPs :: st.lbIPs[i] != Ip(zone, env.lbIP.value)
  }

  /** A supplied IP is not there to be used, or the managed network has no DHCP. */
  ghost predicate CannotBuild(env: Env, st: State, lbZone: string, gatewayZone: string) {
    || NoLbIP(env, st, lbZone) || (OwnsGateway(env) && NoFreeGatewayIP(env, st, gatewayZone))
    || exists n :: OwnNetwork(env, st.networks, n) && !st.networks[n].dhcp
  }

  /** Something is on the managed network. */
  ghost predicate StillLinked(env: Env, st: State) {
    exists n :: OwnNetwork(env, st.networks, n) && IsLinked(st, n)
  }

  // ---- Private Network ----

  /** vpc.Reconcile: the managed network's ID for the status; with a supplied
      network the status stays as it is. */
  method ReconcileNetwork(c: CloudApi, status: Option<string>, ghost lbZone: string, ghost gatewayZone: string)
      returns (r: Result<Option<string>, Failure>)
    requires c.Valid()
    modifies c`st, c`failures, c`waits
    ensures c.Valid() && Grew(old(c.st), c.st, lbZone, gatewayZone)
    ensures r.Err? ==> r.error == ApiFailure || r.error == NoDHCP
    ensures r.Ok? ==>
              if c.env.managedNetwork then
                r.value.Some? && OwnNetwork(c.env, c.st.networks, r.value.value) && c.st.networks[r.value.value].dhcp
              else r.value == status
    ensures c.failures >= old(c.failures) + (if r == Err(ApiFailure) then 1 else 0) && c.waits >= old(c.waits)
    ensures r == Err(NoDHCP) ==> exists n :: OwnNetwork(c.env, c.st.networks, n) && !c.st.networks[n].dhcp
  {
    hide Sound;
    if !c.env.managedNetwork {
      return Ok(status);
    }
    var network := c.FindNetwork();
    if network.Err? {
      return Err(network.error);
    }
    var id: string;
    if network.value.Some? {
      id := network.value.value;
    } else {
      var created := c.CreateNetwork(lbZone, gatewayZone);
      if created.Err? {
        return Err(created.error);
      }
      id := created.value;
    }
    if !c.st.networks[id].dhcp {
      return Err(NoDHCP);
    }
    r := Ok(Some(id));
  }

  /** vpc.Delete: afterwards there is no managed network. */
  method DeleteNetwork(c: CloudApi, ghost lbZone: string, ghost gatewayZone: string) returns (r: Result<(), Failure>)
    requires c.Valid()
    modifies c`st, c`failures, c`waits
    ensures c.Valid() && Shrank(old(c.st), c.st, lbZone, gatewayZone)
    ensures r.Ok? ==> forall n :: !OwnNetwork(c.env, c.st.networks, n)
    ensures r.Ok? ==> forall n | OwnNetwork(c.env, old(c.st).networks, n) ::
              forall l | l in old(c.st).gatewayLinks || l in old(c.st).lbLinks :: l.1 != n
    ensures c.failures >= old(c.failures) + (if r == Err(ApiFailure) then 1 else 0) && c.waits >= old(c.waits)
    ensures r.Err? ==> r.error == ApiFailure || r.error == PreconditionFailed
    ensures r == Err(PreconditionFailed) ==> c.waits > old(c.waits) || StillLinked(c.env, c.st)
  {
    if !c.env.managedNetwork {
      return Ok(());
    }
    var network := c.FindNetwork();
    if network.Err? {
      return Err(network.error);
    }
    if network.value.None? {
      return Ok(());
    }
    assert forall n | OwnNetwork(c.env, c.st.networks, n) :: n == network.value.value;
    hide Sound;
    ghost var o := c.st;
    r := c.DeleteNetwork(network.value.value, lbZone, gatewayZone);
    assert forall n | OwnNetwork(c.env, c.st.networks, n) :: OwnNetwork(c.env, o.networks, n);
  }

  // ---- Gateway ----

  method GetOrCreateGatewayIP(c: CloudApi, zone: string, ghost lbZone: string) returns (r: Result<string, Failure>)
    requires c.Valid() && OwnsGateway(c.env)
    modifies c`st, c`failures, c`waits
    ensures c.Valid() && Grew(old(c.st), c.st, lbZone, zone) && c.st.gateways == old(c.st).gateways
    ensures r.Err? ==> r.error == ApiFailure || r.error == NotFound
    ensures r.Ok? ==> GatewayIPSound(c.env, Gateway(zone, r.value), c.st.gatewayIPs)
    ensures c.failures >= old(c.failures) + (if r == Err(ApiFailure) then 1 else 0) && c.waits >= old(c.waits)
    ensures r == Err(NotFound) ==> NoFreeGatewayIP(c.env, c.st, zone)
  {
    if c.env.gatewayIP.Some? {
      var supplied := c.FindGatewayIP(zone, c.env.gatewayIP.value);
      return supplied;
    }
    hide Sound;
    var tagged := c.FindTaggedIP(zone);
    if tagged.Err? {
      return Err(tagged.error);
    }
    if tagged.value.Some? {
      return Ok(tagged.value.value);
    }
    r := c.CreateGatewayIP(zone, lbZone);
  }

  method GetOrCreateGateway(c: CloudApi, zone: string, ghost lbZone: string) returns (r: Result<string, Failure>)
    requires c.Valid() && OwnsGateway(c.env)
    modifies c`st, c`failures, c`waits
    ensures c.Valid() && Grew(old(c.st), c.st, lbZone, zone)
    ensures r.Err? ==> r.error == ApiFailure || r.error == NotFound
    ensures r.Ok? ==> OwnGateway(c.env, c.st.gateways, r.value) && c.st.gateways[r.value].zone == zone
    ensures c.failures >= old(c.failures) + (if r == Err(ApiFailure) then 1 else 0) && c.waits >= old(c.waits)
    ensures r == Err(NotFound) ==> NoFreeGatewayIP(c.env, c.st, zone)
  {
    hide Sound, GatewayIPSound;
    ghost var o := c.st;
    var gateway := c.FindGateway(zone);
    if gateway.Err? {
      return Err(gateway.error);
    }
    if gateway.value.Some? {
      return Ok(gateway.value.value);
    }
    var ip := GetOrCreateGatewayIP(c, zone, lbZone);
    if ip.Err? {
      return Err(ip.error);
    }
    ghost var p := c.st;
    r := c.CreateGateway(zone, ip.value, lbZone);
    GrewIsTransitive(o, p, c.st, lbZone, zone);
  }

  /** The gateway of the cluster is on its network. */
  predicate GatewayIsBuilt(env: Env, st: State, zone: string, network: Option<string>) {
    env.hasNetwork && env.hasGateway ==>
      network.Some? && exists l | l in st.gatewayLinks ::
        l.1 == network.value && if env.gatewayID.Some? then l.0 == env.gatewayID.value
            else OwnGateway(env, st.gateways, l.0) && st.gateways[l.0].zone == zone
  }

  /** vpcgw.Reconcile. A supplied network whose ID never reached the status stops
      the pass here. */
  method ReconcileGateway(c: CloudApi, zone: string, network: Option<string>, ghost lbZone: string)
      returns (r: Result<(), Failure>)
    requires c.Valid()
    modifies c`st, c`failures, c`waits
    ensures c.Valid() && Grew(old(c.st), c.st, lbZone, zone)
    ensures r.Err? ==> r.error != NotReady && (r.error == NilDereference ==> c.env.hasNetwork && network.None?)
    ensures r.Ok? ==> GatewayIsBuilt(c.env, c.st, zone, network)
    ensures c.failures >= old(c.failures) + (if r == Err(ApiFailure) then 1 else 0) && c.waits >= old(c.waits)
    ensures r.Err? ==> r.error == ApiFailure || r.error == NotFound || r.error == NilDereference
    ensures r == Err(NotFound) ==> OwnsGateway(c.env) && NoFreeGatewayIP(c.env, c.st, zone)
  {
    hide Sound;
    if !c.env.hasNetwork || !c.env.hasGateway {
      return Ok(());
    }
    ghost var o := c.st;
    var id: string;
    if c.env.gatewayID.None? {
      var gateway := GetOrCreateGateway(c, zone, lbZone);
      if gateway.Err? {
        return Err(gateway.error);
      }
      id := gateway.value;
    } else {
      id := c.env.gatewayID.value;
    }
    if network.None? {
      return Err(NilDereference);
    }
    var listed := c.Ask();
    if !listed {
      return Err(ApiFailure);
    }
    ghost var p := c.st;
    if (id, network.value) !in c.st.gatewayLinks {
      var linked := c.LinkGateway(id, network.value, lbZone, zone);
      GrewIsTransitive(o, p, c.st, lbZone, zone);
      if !linked {
        return Err(ApiFailure);
      }
    }
    LinkedIsBuilt(c.env, c.st, zone, network.value, id);
    r := Ok(());
  }

  lemma LinkedIsBuilt(env: Env, st: State, zone: string, network: string, id: string)
    requires (id, network) in st.gatewayLinks
    requires if env.gatewayID.Some? then id == env.gatewayID.value
              else OwnGateway(env, st.gateways, id) && st.gateways[id].zone == zone
    ensures GatewayIsBuilt(env, st, zone, Some(network))
  {
  }

  /** vpcgw.Delete: the own gateway goes, then its automatic IP, and the IP also
      when the gateway went in an earlier pass. */
  method DeleteGateway(c: CloudApi, zone: string, ghost lbZone: string) returns (r: Result<(), Failure>)
    requires c.Valid()
    modifies c`st, c`failures, c`waits
    ensures c.Valid() && Shrank(old(c.st), c.st, lbZone, zone) && c.st.networks == old(c.st).networks
    ensures r.Err? ==> r.error != TooManyItems
    ensures r.Ok? ==> forall g | OwnGateway(c.env, c.st.gateways, g) :: c.st.gateways[g].zone != zone
    ensures r.Ok? ==> forall i | OwnGatewayIP(c.env, c.st.gatewayIPs, i) :: c.st.gatewayIPs[i].zone != zone
    ensures c.failures >= old(c.failures) + (if r == Err(ApiFailure) then 1 else 0) && c.waits >= old(c.waits)
    ensures r.Err? ==> r.error == ApiFailure
  {
    NoOwnGatewayUnlessWanted(c.env, c.st);
    hide Sound;
    if !c.env.hasNetwork || !c.env.hasGateway || c.env.gatewayID.Some? {
      return Ok(());
    }
    ghost var o := c.st;
    var gone := DeleteOwnGateway(c, zone, lbZone);
    ghost var p := c.st;
    if gone.Err? {
      return Err(gone.error);
    }
    r := ReleaseGatewayIP(c, zone, lbZone);
    ShrankIsTransitive(o, p, c.st, lbZone, zone);
    assert forall g | OwnGateway(c.env, c.st.gateways, g) :: OwnGateway(c.env, p.gateways, g);
  }

  lemma NoOwnGatewayUnlessWanted(env: Env, st: State)
    requires Sound(env, st)
    ensures !OwnsGateway(env) ==> (forall g :: !OwnGateway(env, st.gateways, g)) && forall i ::
              !OwnGatewayIP(env, st.gatewayIPs, i)
  {
  }

  method DeleteOwnGateway(c: CloudApi, zone: string, ghost lbZone: string) returns (r: Result<(), Failure>)
    requires c.Valid()
    modifies c`st, c`failures, c`waits
    ensures c.Valid() && Shrank(old(c.st), c.st, lbZone, zone) && c.st.networks == old(c.st).networks
    ensures r.Err? ==> r.error == ApiFailure
    ensures r.Ok? ==> forall g | OwnGateway(c.env, c.st.gateways, g) :: c.st.gateways[g].zone != zone
    ensures c.failures >= old(c.failures) + (if r == Err(ApiFailure) then 1 else 0) && c.waits >= old(c.waits)
  {
    OneGatewayAZone(c.env, c.st);
    hide Sound;
    ghost var o := c.st;
    var gateway := c.FindGateway(zone);
    if gateway.Err? {
      return Err(gateway.error);
    }
    if gateway.value.Some? {
      var deleted := c.DeleteGateway(gateway.value.value, lbZone);
      if !deleted {
        return Err(ApiFailure);
      }
      assert forall g | OwnGateway(c.env, c.st.gateways, g) ::
          g != gateway.value.value && OwnGateway(c.env, o.gateways, g);
    }
    r := Ok(());
  }

  lemma OneGatewayAZone(env: Env, st: State)
    requires Sound(env, st)
    ensures forall g, h | OwnGateway(env, st.gateways, g) && OwnGateway(env, st.gateways, h)
              && st.gateways[g].zone == st.gateways[h].zone :: g == h
    ensures forall i, j | OwnGatewayIP(env, st.gatewayIPs, i) && OwnGatewayIP(env, st.gatewayIPs, j)
              && st.gatewayIPs[i].zone == st.gatewayIPs[j].zone :: i == j
    ensures forall g | OwnGateway(env, st.gateways, g) && env.gatewayIP.None? ::
              st.gateways[g].ip in st.gatewayIPs && st.gatewayIPs[st.gateways[g].ip].zone == st.gateways[g].zone
    ensures env.gatewayIP.Some? ==> forall i :: !OwnGatewayIP(env, st.gatewayIPs, i)
  {
  }

  method ReleaseGatewayIP(c: CloudApi, zone: string, ghost lbZone: string) returns (r: Result<(), Failure>)
    requires c.Valid() && forall g | OwnGateway(c.env, c.st.gateways, g) :: c.st.gateways[g].zone != zone
    modifies c`st, c`failures, c`waits
    ensures c.Valid() && Shrank(old(c.st), c.st, lbZone, zone) && c.st.networks == old(c.st).networks
    ensures r.Err? ==> r.error == ApiFailure
    ensures r.Ok? ==> forall i | OwnGatewayIP(c.env, c.st.gatewayIPs, i) :: c.st.gatewayIPs[i].zone != zone
    ensures c.failures >= old(c.failures) + (if r == Err(ApiFailure) then 1 else 0) && c.waits >= old(c.waits)
  {
    OneGatewayAZone(c.env, c.st);
    hide Sound;
    ghost var o := c.st;
    if c.env.gatewayIP.Some? {
      return Ok(());
    }
    var ip := c.FindTaggedIP(zone);
    if ip.Err? {
      return Err(ip.error);
    }
    if ip.value.Some? {
      var released := c.DeleteGatewayIP(ip.value.value, lbZone);
      if !released {
        return Err(ApiFailure);
      }
      assert forall i | OwnGatewayIP(c.env, c.st.gatewayIPs, i) ::
          i != ip.value.value && OwnGatewayIP(c.env, o.gatewayIPs, i);
    }
    r := Ok(());
  }

  // ---- Load balancer ----

  method GetOrCreateLb(c: CloudApi, zone: string, ghost gatewayZone: string) returns (r: Result<string, Failure>)
    requires c.Valid()
    modifies c`st, c`failures, c`waits
    ensures c.Valid() && Grew(old(c.st), c.st, zone, gatewayZone)
    ensures r.Err? ==> r.error == ApiFailure || r.error == NotFound
    ensures r.Ok? ==> r.value in c.st.lbs && c.st.lbs[r.value].zone == zone
    ensures c.failures >= old(c.failures) + (if r == Err(ApiFailure) then 1 else 0) && c.waits >= old(c.waits)
    ensures r == Err(NotFound) ==> NoLbIP(c.env, c.st, zone)
  {
    hide Sound;
    var lb := c.FindLb(zone);
    if lb.Err? {
      return Err(lb.error);
    }
    if lb.value.Some? {
      return Ok(lb.value.value);
    }
    var ip: Option<string> := None;
    if c.env.lbIP.Some? {
      var supplied := c.FindLbIP(zone, c.env.lbIP.value);
      if supplied.Err? {
        return Err(supplied.error);
      }
      ip := Some(supplied.value);
    }
    r := c.CreateLb(zone, ip, gatewayZone);
  }

  predicate LbIsBuilt(env: Env, st: State, zone: string, network: Option<string>, endpoint: string) {
    exists i | i in st.lbs ::
      && st.lbs[i].zone == zone && st.lbs[i].ip in st.lbIPs && st.lbIPs[st.lbs[i].ip].address == endpoint
      && (env.hasNetwork ==> network.Some? && (i, network.value) in st.lbLinks)
  }

  // ---- Gateways on the network ----

  /** The gateway is on the network, in one of the zones. */
  predicate GatewayOn(st: State, network: string, zones: seq<string>, g: string) {
    (g, network) in st.gatewayLinks && g in st.gateways && st.gateways[g].zone in zones
  }

  /** A gateway as the API lists it, with the address of its IP if it has one. */
  function Seen(st: State, g: string): AclPass.Gateway
    requires g in st.gateways
  {
    AclPass.Gateway(g, if st.gateways[g].ip in st.gatewayIPs then Some(st.gatewayIPs[st.gateways[g].ip].address)
        else None)
  }

  /** The listing is of the gateways on the network, each as it is. */
  ghost predicate GatewaysAre(st: State, network: string, zones: seq<string>, listing: seq<AclPass.Gateway>) {
    && (forall x | x in listing :: GatewayOn(st, network, zones, x.id) && x == Seen(st, x.id))
    && (forall g | GatewayOn(st, network, zones, g) :: Seen(st, g) in listing)
  }

  /** FindGatewaysByPrivateNetworkID. */
  method ListGatewaysOn(c: CloudApi, network: string, zones: seq<string>)
      returns (r: Result<seq<AclPass.Gateway>, RequestFailure>)
    modifies c`failures
    ensures r.Ok? ==> GatewaysAre(c.st, network, zones, r.value)
    ensures c.failures == old(c.failures) + (if r.Ok? then 0 else 1)
  {
    var listed := c.Ask();
    if !listed {
      return Err(RequestFailed);
    }
    var listing: seq<AclPass.Gateway> := [];
    var todo := c.st.gateways.Keys;
    while todo != {}
      invariant todo <= c.st.gateways.Keys
      invariant forall x | x in listing :: GatewayOn(c.st, network, zones, x.id) && x == Seen(c.st, x.id)
      invariant forall g | GatewayOn(c.st, network, zones, g) && g !in todo :: Seen(c.st, g) in listing
      decreases todo
    {
      var g :| g in todo;
      todo := todo - {g};
      if GatewayOn(c.st, network, zones, g) {
        listing := listing + [Seen(c.st, g)];
      }
    }
    r := Ok(listing);
  }

  // ---- What is behind the load balancer of the zone ----

  /** The control-plane frontend sends to the control-plane backend, and there is
      nothing else. */
  ghost predicate IsServing(balancer: LB.LoadBalancer)
    reads balancer
  {
    exists b, f ::
      && balancer.backends.Keys == {b}
      && balancer.backends[b].name == "control-plane" && balancer.backends[b].port == 6443
      && balancer.frontends.Keys == {f} && balancer.frontends[f] == LB.Frontend("control-plane", 6443, b)
  }

  /** A gateway that is linked to the network, in one of the zones, has an address
      that covers this one. */
  ghost predicate LinkedGatewayLetsIn(st: State, network: string, zones: seq<string>, a: SecurityRules.Address) {
    exists g | (g, network) in st.gatewayLinks && g in st.gateways && st.gateways[g].zone in zones ::
      st.gateways[g].ip in st.gatewayIPs && AC.Covers4(st.gatewayIPs[st.gateways[g].ip].address, a)
  }

  /** An address is let in exactly if no ranges are declared, or it is in one, is
      the address of a gateway on the network, or is let in by a machine's entry. */
  ghost predicate AdmitsExactly(st: State, zones: seq<string>, network: Option<string>, acls: AC.Acls,
      ranges: seq<string>) {
    forall a :: AC.Admits(acls, a) <==>
      || AclPass.RangesLetIn(ranges, a)
      || (network.Some? && LinkedGatewayLetsIn(st, network.value, zones, a))
      || AclPass.MachineLetsIn(acls, a)
  }

  lemma ListedGatewaysLetIn(st: State, network: string, zones: seq<string>, listing: seq<AclPass.Gateway>,
      a: SecurityRules.Address)
    requires GatewaysAre(st, network, zones, listing)
    ensures AclPass.GatewayLetsIn(listing, a) <==> LinkedGatewayLetsIn(st, network, zones, a)
  {
    hide AC.Covers4;
    if x :| x in listing && x.ip.Some? && AC.Covers4(x.ip.value, a) {
      assert GatewayOn(st, network, zones, x.id) && x == Seen(st, x.id);
    }
    if g :|
        (g, network) in st.gatewayLinks && g in st.gateways && st.gateways[g].zone in zones
        && st.gateways[g].ip in st.gatewayIPs && AC.Covers4(st.gatewayIPs[st.gateways[g].ip].address, a) {
      assert GatewayOn(st, network, zones, g);
      assert Seen(st, g) in listing;
    }
  }

  lemma ListedAdmitsExactly(st: State, zones: seq<string>, network: Option<string>, acls: AC.Acls, ranges: seq<string>,
      gateways: Option<seq<AclPass.Gateway>>)
    requires network.Some? <==> gateways.Some?
    requires gateways.Some? ==> GatewaysAre(st, network.value, zones, gateways.value)
    requires AclPass.LetsInExactly(acls, ranges, if gateways.None? then [] else gateways.value)
    ensures AdmitsExactly(st, zones, network, acls, ranges)
  {
    hide AC.Admits, AclPass.RangesLetIn, AclPass.MachineLetsIn, AclPass.GatewayLetsIn, LinkedGatewayLetsIn, GatewaysAre;
    forall a
      ensures AC.Admits(acls, a) <==>
        || AclPass.RangesLetIn(ranges, a)
        || (network.Some? && LinkedGatewayLetsIn(st, network.value, zones, a))
        || AclPass.MachineLetsIn(acls, a)
    {
      AclPass.NoGatewayLetsNobodyIn(a);
      if gateways.Some? { ListedGatewaysLetIn(st, network.value, zones, gateways.value, a); }
    }
  }

  /** An address is let in exactly as declared, with the gateways on the network. */
  ghost predicate LetsInAsDeclared(env: Env, st: State, zones: seq<string>, network: Option<string>, acls: AC.Acls,
      ranges: seq<string>) {
    exists gateways: Option<seq<AclPass.Gateway>> ::
      && (gateways.Some? <==> env.hasNetwork)
      && (gateways.Some? ==> network.Some? && GatewaysAre(st, network.value, zones, gateways.value))
      && var ips := if gateways.None? then None else Some(AclPass.GatewayAddresses(gateways.value));
      && AC.FixedEntriesAre(acls, ranges, ips)
      && AdmitsExactly(st, zones, if env.hasNetwork then network else None, acls, ranges)
  }

  /** No state of the list since position n locks the declared ranges out, unless
      something denied before; then none does once the ranges are written. */
  ghost predicate NobodyIsLockedOut(list: AclPass.AclList, n: nat, before: AC.Acls, ranges: seq<string>)
    reads list
  {
    && (ranges != [] && !AC.Has(before, Scope.DENY_ALL) ==> AclPass.AdmittedFrom(list.log, n, ranges))
    && (ranges != [] ==> AclPass.InOnceWritten(list.log, n, ranges))
  }

  /** The steps of loadbalancer.Reconcile behind the private network: backend,
      frontend, access-control list. */
  method Configure(c: CloudApi, zones: seq<string>, network: Option<string>, balancer: LB.LoadBalancer,
      list: AclPass.AclList, ranges: seq<string>)
    returns (r: Result<int, Failure>)
    requires balancer.Valid() && list.Valid() && (c.env.hasNetwork ==> network.Some?)
    modifies c`failures, balancer, list
    ensures balancer.Valid() && list.Valid() && AclPass.Extends(old(list.log), list.log)
    ensures old(balancer.edits) <= balancer.edits
    ensures LB.PoolsSurvive(old(balancer.backends), balancer.backends, balancer.edits[|old(balancer.edits)|..])
    ensures r.Err? ==> r.error == ApiFailure
    ensures NobodyIsLockedOut(list, |old(list.log)|, old(list.acls), ranges)
    ensures !c.env.hasNetwork && !AC.Has(old(list.acls), Scope.PUBLIC_GATEWAY) ==>
              !AC.Has(list.acls, Scope.PUBLIC_GATEWAY)
    ensures r.Ok? ==> IsServing(balancer) && r.value == 6443
    ensures r.Ok? && (c.env.hasNetwork || !AC.Has(old(list.acls), Scope.PUBLIC_GATEWAY)) ==>
              LetsInAsDeclared(c.env, c.st, zones, network, list.acls, ranges)
    ensures c.failures >= old(c.failures) && balancer.failures >= old(balancer.failures)
              && list.failures >= old(list.failures)
    ensures r == Err(ApiFailure) ==>
              c.failures + balancer.failures + list.failures > old(c.failures + balancer.failures + list.failures)
  {
    hide LB.PoolsSurvive, LB.Wired, LB.LoadBalancer.Valid, AclPass.AclList.Valid, NobodyIsLockedOut, LetsInAsDeclared,
      IsServing, AC.Has;
    NothingNewLocksOut(list, ranges);
    LB.NothingEdited(balancer.backends);
    var serving := Serve(balancer);
    if serving.Err? {
      return Err(ApiFailure);
    }
    var done := Admit(c, zones, network, list, ranges);
    r := if done.Err? then Err(ApiFailure) else Ok(serving.value);
  }

  /** ensureACLs with the gateways on the network. */
  method Admit(c: CloudApi, zones: seq<string>, network: Option<string>, list: AclPass.AclList, ranges: seq<string>)
    returns (r: Result<(), RequestFailure>)
    requires list.Valid() && (c.env.hasNetwork ==> network.Some?)
    modifies c`failures, list
    ensures list.Valid() && AclPass.Extends(old(list.log), list.log)
    ensures NobodyIsLockedOut(list, |old(list.log)|, old(list.acls), ranges)
    ensures !c.env.hasNetwork && !AC.Has(old(list.acls), Scope.PUBLIC_GATEWAY) ==>
              !AC.Has(list.acls, Scope.PUBLIC_GATEWAY)
    ensures r.Ok? && (c.env.hasNetwork || !AC.Has(old(list.acls), Scope.PUBLIC_GATEWAY)) ==>
              LetsInAsDeclared(c.env, c.st, zones, network, list.acls, ranges)
    ensures c.failures >= old(c.failures) && list.failures >= old(list.failures)
    ensures r.Err? ==> c.failures + list.failures > old(c.failures + list.failures)
  {
    hide AC.ListInvariant, AclPass.AdmittedFrom, AclPass.InOnceWritten, AclPass.StaysOnceWritten, AclPass.NothingToSend,
      AclPass.CommonAdmittedFrom, AC.Admits, AC.Declared, AC.FixedEntriesAre, AclPass.EntriesAre, GatewaysAre,
      AclPass.LetsInExactly, AdmitsExactly, AC.Has, AclPass.Extends;
    ghost var acls := list.acls;
    var attached: Option<Result<seq<AclPass.Gateway>, RequestFailure>> := None;
    if c.env.hasNetwork {
      var listing := ListGatewaysOn(c, network.value, zones);
      attached := Some(listing);
    }
    r := AclPass.EnsureACLs(list, ranges, attached);
    if r.Err? {
      return;
    }
    ghost var gateways := if attached.None? then None else Some(attached.value.value);
    assert gateways.Some? ==> GatewaysAre(c.st, network.value, zones, gateways.value);
    if c.env.hasNetwork || !AC.Has(acls, Scope.PUBLIC_GATEWAY) {
      ListedAdmitsExactly(c.st, zones, if c.env.hasNetwork then network else None, list.acls, ranges, gateways);
    }
  }

  /** ensureBackend and ensureFrontend. */
  method Serve(balancer: LB.LoadBalancer) returns (r: Result<int, RequestFailure>)
    requires balancer.Valid()
    modifies balancer
    ensures balancer.Valid() && old(balancer.edits) <= balancer.edits
    ensures LB.PoolsSurvive(old(balancer.backends), balancer.backends, balancer.edits[|old(balancer.edits)|..])
    ensures r.Ok? ==> IsServing(balancer) && r.value == 6443
    ensures balancer.failures >= old(balancer.failures) + (if r.Ok? then 0 else 1)
  {
    hide LB.PoolsSurvive, LB.EditedOnly, LB.NamedStay, LB.Wired;
    ghost var before := balancer.backends;
    var backend, es := LB.EnsureBackend(balancer);
    assert balancer.edits[|old(balancer.edits)|..] == es;
    if backend.Err? {
      return Err(RequestFailed);
    }
    ghost var turn := balancer.backends;
    var frontend, more := LB.EnsureFrontend(balancer, backend.value);
    LB.SurvivesThenEdited(before, turn, balancer.backends, es, more);
    LB.SameKeys(turn, balancer.backends, more);
    assert balancer.edits[|old(balancer.edits)|..] == es + more;
    if frontend.Err? {
      return Err(RequestFailed);
    }
    r := Ok(balancer.frontends[frontend.value].port);
  }

  /** loadbalancer.Reconcile. `balancer` and `list` are what the load balancer of
      the zone has behind it. */
  method ReconcileLb(c: CloudApi, zone: string, network: Option<string>, ghost gatewayZone: string, zones: seq<string>,
                     balancer: LB.LoadBalancer, list: AclPass.AclList, ranges: seq<string>)
    returns (r: Result<string, Failure>, port: int)
    requires c.Valid() && balancer.Valid() && list.Valid()
    modifies c`st, c`failures, c`waits, balancer, list
    ensures c.Valid() && Grew(old(c.st), c.st, zone, gatewayZone)
    ensures balancer.Valid() && list.Valid() && AclPass.Extends(old(list.log), list.log)
    ensures NobodyIsLockedOut(list, |old(list.log)|, old(list.acls), ranges)
    ensures r.Err? && r.error == NilDereference ==> c.env.hasNetwork && network.None?
    ensures r.Ok? ==> LbIsBuilt(c.env, c.st, zone, network, r.value) && IsServing(balancer) && port == 6443
    ensures r.Ok? && (c.env.hasNetwork || !AC.Has(old(list.acls), Scope.PUBLIC_GATEWAY)) ==>
              LetsInAsDeclared(c.env, c.st, zones, network, list.acls, ranges)
    ensures c.failures >= old(c.failures) && balancer.failures >= old(balancer.failures)
              && list.failures >= old(list.failures)
    ensures r == Err(ApiFailure) ==>
              c.failures + balancer.failures + list.failures > old(c.failures + balancer.failures + list.failures)
    ensures c.waits >= old(c.waits) && (r == Err(NotReady) ==> c.waits > old(c.waits))
    ensures r.Err? ==> r.error == ApiFailure || r.error == NotReady || r.error == NilDereference || r.error == NotFound
    ensures r == Err(NotFound) ==> NoLbIP(c.env, c.st, zone)
  {
    NothingNewLocksOut(list, ranges);
    hide Sound, Grew, NobodyIsLockedOut, LetsInAsDeclared, IsServing;
    port := 0;
    ghost var o := c.st;
    var lb := GetOrCreateLb(c, zone, gatewayZone);
    if lb.Err? {
      return Err(lb.error), port;
    }
    ghost var p := c.st;
    var linked := LinkNetwork(c, lb.value, network, gatewayZone, zone);
    GrewIsTransitive(o, p, c.st, zone, gatewayZone);
    if linked.Err? {
      return Err(linked.error), port;
    }
    LbStays(p, c.st, zone, gatewayZone, lb.value);
    var configured := Configure(c, zones, network, balancer, list, ranges);
    if configured.Err? {
      return Err(configured.error), port;
    }
    LbHasIP(c.env, c.st, lb.value);
    r, port := Ok(c.st.lbIPs[c.st.lbs[lb.value].ip].address), configured.value;
  }

  /** The readiness test and ensurePrivateNetwork. */
  method LinkNetwork(c: CloudApi, lb: string, network: Option<string>, ghost gatewayZone: string, ghost zone: string)
      returns (r: Result<(), Failure>)
    requires c.Valid() && lb in c.st.lbs
    modifies c`st, c`failures, c`waits
    ensures c.Valid() && Grew(old(c.st), c.st, zone, gatewayZone)
    ensures r.Err? && r.error == NilDereference ==> c.env.hasNetwork && network.None?
    ensures r.Ok? && c.env.hasNetwork ==> network.Some? && (lb, network.value) in c.st.lbLinks
    ensures c.failures >= old(c.failures) + (if r == Err(ApiFailure) then 1 else 0) && c.waits >= old(c.waits)
    ensures r.Err? ==> r.error == ApiFailure || r.error == NotReady || r.error == NilDereference
    ensures r == Err(NotReady) ==> c.waits > old(c.waits)
  {
    hide Sound;
    var ready := c.IsReady();
    if !ready {
      return Err(NotReady);
    }
    if c.env.hasNetwork {
      if network.None? {
        return Err(NilDereference);
      }
      if (lb, network.value) !in c.st.lbLinks {
        var linked := c.LinkLb(lb, network.value, gatewayZone, zone);
        if !linked {
          return Err(ApiFailure);
        }
      }
    }
    r := Ok(());
  }

  lemma LbStays(o: State, p: State, zone: string, gatewayZone: string, lb: string)
    requires Grew(o, p, zone, gatewayZone) && lb in o.lbs
    ensures lb in p.lbs && p.lbs[lb] == o.lbs[lb]
  {
  }

  lemma NothingNewLocksOut(list: AclPass.AclList, ranges: seq<string>)
    ensures NobodyIsLockedOut(list, |list.log|, list.acls, ranges)
  {
  }

  lemma LbHasIP(env: Env, st: State, id: string)
    requires Sound(env, st) && id in st.lbs
    ensures st.lbs[id].ip in st.lbIPs
  {
  }

  /** loadbalancer.Delete: the load balancer of the zone goes, its IP with it
      exactly when the IP was automatic. */
  method DeleteLb(c: CloudApi, zone: string, ghost gatewayZone: string) returns (r: Result<(), Failure>)
    requires c.Valid()
    modifies c`st, c`failures, c`waits
    ensures c.Valid() && Shrank(old(c.st), c.st, zone, gatewayZone) && c.st.networks == old(c.st).networks
    ensures r.Ok? ==> forall i | i in c.st.lbs :: c.st.lbs[i].zone != zone
    ensures c.failures >= old(c.failures) + (if r == Err(ApiFailure) then 1 else 0) && c.waits >= old(c.waits)
    ensures r.Err? ==> r.error == ApiFailure
  {
    assert forall i, j | i in c.st.lbs && j in c.st.lbs && c.st.lbs[i].zone == c.st.lbs[j].zone :: i == j;
    hide Sound;
    ghost var o := c.st;
    var lb := c.FindLb(zone);
    if lb.Err? {
      return Err(lb.error);
    }
    if lb.value.None? {
      return Ok(());
    }
    var releaseIP := !c.env.lbIP.Some?;
    var deleted := c.DeleteLb(lb.value.value, releaseIP, gatewayZone);
    if !deleted {
      return Err(ApiFailure);
    }
    assert forall i | i in c.st.lbs :: i in o.lbs && i != lb.value.value;
    r := Ok(());
  }

  // ---- Both directions ----

  predicate IsBuilt(env: Env, st: State, lbZone: string, gatewayZone: string, network: Option<string>,
      endpoint: string) {
    && (env.managedNetwork ==>
        network.Some? && OwnNetwork(env, st.networks, network.value) && st.networks[network.value].dhcp)
    && GatewayIsBuilt(env, st, gatewayZone, network) && LbIsBuilt(env, st, lbZone, network, endpoint)
  }

  lemma StaysBuilt(env: Env, o: State, p: State, lbZone: string, gatewayZone: string, network: Option<string>)
    requires Grew(o, p, lbZone, gatewayZone)
    ensures GatewayIsBuilt(env, o, gatewayZone, network) ==> GatewayIsBuilt(env, p, gatewayZone, network)
    ensures forall n | OwnNetwork(env, o.networks, n) ::
              OwnNetwork(env, p.networks, n) && p.networks[n] == o.networks[n]
  {
  }

  datatype Built = Built(network: Option<string>, endpoint: string, port: int)

  /** Network, then gateway, then load balancer. `stored` is the network of the
      status when the pass ends, also where it ends early. */
  method Build(c: CloudApi, lbZone: string, gatewayZone: string, status: Option<string>, zones: seq<string>,
               balancer: LB.LoadBalancer, list: AclPass.AclList, ranges: seq<string>)
    returns (r: Result<Built, Failure>, stored: Option<string>)
    requires c.Valid() && balancer.Valid() && list.Valid()
    modifies c`st, c`failures, c`waits, balancer, list
    ensures c.Valid() && Grew(old(c.st), c.st, lbZone, gatewayZone)
    ensures balancer.Valid() && list.Valid() && AclPass.Extends(old(list.log), list.log)
    ensures NobodyIsLockedOut(list, |old(list.log)|, old(list.acls), ranges)
    ensures stored == status || (c.env.managedNetwork && stored.Some? && OwnNetwork(c.env, c.st.networks, stored.value))
    ensures r.Ok? ==>
              r.value.network == stored && IsBuilt(c.env, c.st, lbZone, gatewayZone, stored, r.value.endpoint)
              && IsServing(balancer) && r.value.port == 6443
    ensures r.Ok? && (c.env.hasNetwork || !AC.Has(old(list.acls), Scope.PUBLIC_GATEWAY)) ==>
              LetsInAsDeclared(c.env, c.st, zones, stored, list.acls, ranges)
    ensures r.Err? && r.error == NotReady && c.env.managedNetwork ==>
              stored.Some? && OwnNetwork(c.env, c.st.networks, stored.value)
    ensures r.Err? && r.error == NilDereference ==> c.env.hasNetwork && !c.env.managedNetwork && status.None?
    ensures c.env.hasNetwork && !c.env.managedNetwork && status.None? ==> r.Err?
    ensures c.failures >= old(c.failures) && balancer.failures >= old(balancer.failures)
              && list.failures >= old(list.failures)
    ensures r == Err(ApiFailure) ==>
              c.failures + balancer.failures + list.failures > old(c.failures + balancer.failures + list.failures)
    ensures c.waits >= old(c.waits) && (r == Err(NotReady) ==> c.waits > old(c.waits))
    ensures r.Err? && r.error !in {ApiFailure, NotReady, NilDereference} ==>
              CannotBuild(c.env, c.st, lbZone, gatewayZone)
  {
    NothingNewLocksOut(list, ranges);
    hide Sound, Grew, GatewayIsBuilt, OwnNetwork, NobodyIsLockedOut, LetsInAsDeclared, IsServing;
    ghost var o := c.st;
    stored := status;
    var network := ReconcileNetwork(c, status, lbZone, gatewayZone);
    ghost var p := c.st;
    if network.Err? {
      return Err(network.error), stored;
    }
    stored := network.value;
    var gateway := ReconcileGateway(c, gatewayZone, stored, lbZone);
    ghost var q := c.st;
    GrewIsTransitive(o, p, q, lbZone, gatewayZone);
    StaysBuilt(c.env, p, q, lbZone, gatewayZone, stored);
    if gateway.Err? {
      return Err(gateway.error), stored;
    }
    var endpoint, port := ReconcileLb(c, lbZone, stored, gatewayZone, zones, balancer, list, ranges);
    GrewIsTransitive(o, q, c.st, lbZone, gatewayZone);
    StaysBuilt(c.env, q, c.st, lbZone, gatewayZone, stored);
    if endpoint.Err? {
      return Err(endpoint.error), stored;
    }
    r := Ok(Built(stored, endpoint.value, port));
  }

  /** The zones of the pass hold nothing of the cluster's, and there is no own network. */
  ghost predicate IsCleared(env: Env, st: State, lbZone: string, gatewayZone: string) {
    && (forall i | i in st.lbs :: st.lbs[i].zone != lbZone)
    && (forall g | OwnGateway(env, st.gateways, g) :: st.gateways[g].zone != gatewayZone)
    && (forall i | OwnGatewayIP(env, st.gatewayIPs, i) :: st.gatewayIPs[i].zone != gatewayZone)
    && (forall n :: !OwnNetwork(env, st.networks, n))
  }

  /** Something the pass cannot take off the network keeps it from being deleted:
      a gateway the user supplied, or a load balancer or gateway in another zone. */
  ghost predicate HoldsTheNetwork(env: Env, st: State, lbZone: string, gatewayZone: string) {
    exists n | OwnNetwork(env, st.networks, n) ::
      || (exists g | (g, n) in st.gatewayLinks ::
          g in env.theirs.gateways || (g in st.gateways && st.gateways[g].zone != gatewayZone))
      || (exists i | (i, n) in st.lbLinks :: i in st.lbs && st.lbs[i].zone != lbZone)
  }

  /** Load balancer, then gateway and IP, then network. */
  method TakeDown(c: CloudApi, lbZone: string, gatewayZone: string) returns (r: Result<(), Failure>)
    requires c.Valid()
    modifies c`st, c`failures, c`waits
    ensures c.Valid() && Shrank(old(c.st), c.st, lbZone, gatewayZone)
    ensures r.Ok? ==> IsCleared(c.env, c.st, lbZone, gatewayZone)
    ensures HoldsTheNetwork(c.env, old(c.st), lbZone, gatewayZone) ==> r.Err?
    ensures c.failures >= old(c.failures) + (if r == Err(ApiFailure) then 1 else 0) && c.waits >= old(c.waits)
    ensures r.Err? ==> r.error == ApiFailure || r.error == PreconditionFailed
    ensures r == Err(PreconditionFailed) ==> c.waits > old(c.waits) || StillLinked(c.env, c.st)
  {
    hide Sound, Shrank, HoldsTheNetwork;
    ghost var o := c.st;
    var lb := DeleteLb(c, lbZone, gatewayZone);
    ghost var p := c.st;
    if lb.Err? {
      return Err(lb.error);
    }
    var gateway := DeleteGateway(c, gatewayZone, lbZone);
    ghost var q := c.st;
    ShrankIsTransitive(o, p, q, lbZone, gatewayZone);
    if gateway.Err? {
      return Err(gateway.error);
    }
    r := DeleteNetwork(c, lbZone, gatewayZone);
    ShrankIsTransitive(o, q, c.st, lbZone, gatewayZone);
    if r.Ok? { StaysCleared(c.env, p, q, c.st, lbZone, gatewayZone); }
    if HoldsTheNetwork(c.env, o, lbZone, gatewayZone) { StillHeld(c.env, o, q, lbZone, gatewayZone); }
  }

  lemma StillHeld(env: Env, o: State, p: State, lbZone: string, gatewayZone: string)
    requires Sound(env, o) && Sound(env, p) && Shrank(o, p, lbZone, gatewayZone)
              && HoldsTheNetwork(env, o, lbZone, gatewayZone)
    requires forall n | OwnNetwork(env, o.networks, n) :: n in p.networks
    ensures exists n, l :: OwnNetwork(env, p.networks, n) && (l in p.gatewayLinks || l in p.lbLinks) && l.1 == n
  {
    hide LbsSound, GatewaysSound, NetworksSound;
    var n :| OwnNetwork(env, o.networks, n)
      && ((exists g | (g, n) in o.gatewayLinks ::
             g in env.theirs.gateways || (g in o.gateways && o.gateways[g].zone != gatewayZone))
          || (exists i | (i, n) in o.lbLinks :: i in o.lbs && o.lbs[i].zone != lbZone));
    assert OwnNetwork(env, p.networks, n);
    if g :|
        (g, n) in o.gatewayLinks
        && (g in env.theirs.gateways || (g in o.gateways && o.gateways[g].zone != gatewayZone)) {
      assert g in p.gateways && (g, n).0 == g && (g, n) in p.gatewayLinks;
    } else {
      var i :| (i, n) in o.lbLinks && i in o.lbs && o.lbs[i].zone != lbZone;
      assert i in p.lbs && (i, n).0 == i && (i, n) in p.lbLinks;
    }
  }

  lemma StaysCleared(env: Env, o: State, p: State, q: State, lbZone: string, gatewayZone: string)
    requires Shrank(o, p, lbZone, gatewayZone) && Shrank(p, q, lbZone, gatewayZone)
    requires forall i | i in o.lbs :: o.lbs[i].zone != lbZone
    requires forall g | OwnGateway(env, p.gateways, g) :: p.gateways[g].zone != gatewayZone
    requires forall i | OwnGatewayIP(env, p.gatewayIPs, i) :: p.gatewayIPs[i].zone != gatewayZone
    requires forall n :: !OwnNetwork(env, q.networks, n)
    ensures IsCleared(env, q, lbZone, gatewayZone)
  {
    forall g | OwnGateway(env, q.gateways, g) ensures q.gateways[g].zone != gatewayZone {
      assert OwnGateway(env, p.gateways, g);
    }
    forall i | OwnGatewayIP(env, q.gatewayIPs, i) ensures q.gatewayIPs[i].zone != gatewayZone {
      assert OwnGatewayIP(env, p.gatewayIPs, i);
    }
  }
}
