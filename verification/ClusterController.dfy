// The cluster controller: finalizer, order of creation and teardown, and what
// is left when the finalizer goes.
module ClusterController {
  import opened Wrappers
  import opened Api
  import opened Scope
  import SecurityRules
  import W = Webhook
  import SG = SecurityGroups
  import CC = ClusterCloud
  import CP = ClusterPass
  import AC = AccessControl
  import AclPass
  import LB = LoadBalancing

  // Crashed is a nil dereference; BadRule would be an error of the rule compiler.
  datatype Done = Finished | Requeue | Failed | BadRule | Crashed

  /** The part of a declaration that no admitted update can change. */
  function EnvOf(spec: ClusterSpec, theirs: CC.Theirs): CC.Env {
    var gw := PublicGatewayOf(spec);
    CC.Env(ShouldManagePrivateNetwork(spec), HasPrivateNetwork(spec), HasPublicGateway(spec),
           if gw.Some? then gw.value.id else None, if gw.Some? then gw.value.ip else None,
           LoadBalancerIPOf(spec), theirs)
  }

  /** Admission is why ownership is stable. */
  lemma UpdatesKeepTheEnv(a: ClusterSpec, b: ClusterSpec, theirs: CC.Theirs)
    requires W.SameImmutableFields(a, b)
    ensures EnvOf(a, theirs) == EnvOf(b, theirs)
    ensures (WantsNetwork(a) <==> WantsNetwork(b)) && (WantsGateway(a) <==> WantsGateway(b))
    ensures WantsNetwork(a) ==> a.network.value.privateNetwork == b.network.value.privateNetwork
    ensures WantsGateway(a) ==> a.network.value.publicGateway == b.network.value.publicGateway
  {
  }

  ghost predicate NoGroups(groups: SG.Groups, d: SG.Desired) {
    forall id | id in groups :: !SG.Own(groups[id], d)
  }

  /** No group of the cluster's tag is left in the zones. */
  ghost predicate NoGroupsLeft(groups: SG.Groups, cluster: string, zones: seq<string>) {
    forall id | id in groups && groups[id].tag == "caps-cluster=" + "caps-" + cluster :: groups[id].zone !in zones
  }

  lemma NoneOfTheTag(groups: SG.Groups, d: SG.Desired)
    requires NoGroups(groups, d)
    ensures NoGroupsLeft(groups, d.cluster, d.zones)
  {
    SG.TagAndName(d, 0);
    hide ClusterTag;
    forall id | id in groups && groups[id].tag == "caps-cluster=" + "caps-" + d.cluster
      ensures groups[id].zone !in d.zones
    {
      assert !SG.Own(groups[id], d);
    }
  }

  ghost predicate InZones(env: CC.Env, st: CC.State, lbZones: set<string>, gatewayZones: set<string>) {
    && (forall i | i in st.lbs :: st.lbs[i].zone in lbZones)
    && (forall g | CC.OwnGateway(env, st.gateways, g) :: st.gateways[g].zone in gatewayZones)
    && (forall i | CC.OwnGatewayIP(env, st.gatewayIPs, i) :: st.gatewayIPs[i].zone in gatewayZones)
  }

  lemma GrowingStaysInZones(env: CC.Env, o: CC.State, p: CC.State, lbZone: string, gatewayZone: string,
      lbZones: set<string>, gatewayZones: set<string>)
    requires CC.Grew(o, p, lbZone, gatewayZone) && InZones(env, o, lbZones, gatewayZones) && lbZone in lbZones
              && gatewayZone in gatewayZones
    ensures InZones(env, p, lbZones, gatewayZones)
  {
    forall g | CC.OwnGateway(env, p.gateways, g) ensures p.gateways[g].zone in gatewayZones {
      if g in o.gateways { assert CC.OwnGateway(env, o.gateways, g); }
    }
    forall i | CC.OwnGatewayIP(env, p.gatewayIPs, i) ensures p.gatewayIPs[i].zone in gatewayZones {
      if i in o.gatewayIPs { assert CC.OwnGatewayIP(env, o.gatewayIPs, i); }
    }
  }

  lemma ShrinkingStaysInZones(env: CC.Env, o: CC.State, p: CC.State, lbZone: string, gatewayZone: string,
      lbZones: set<string>, gatewayZones: set<string>)
    requires CC.Shrank(o, p, lbZone, gatewayZone) && InZones(env, o, lbZones, gatewayZones)
    ensures InZones(env, p, lbZones, gatewayZones)
  {
    assert forall g | CC.OwnGateway(env, p.gateways, g) :: CC.OwnGateway(env, o.gateways, g);
    assert forall i | CC.OwnGatewayIP(env, p.gatewayIPs, i) :: CC.OwnGatewayIP(env, o.gatewayIPs, i);
  }

  /** What is left after a teardown: nothing, exactly if all there was before was
      in the zones it looked at. */
  lemma NothingIsLeftExactlyWhenInZones(env: CC.Env, before: CC.State, after: CC.State, lbZone: string,
      gatewayZone: string)
    requires CC.Sound(env, before) && CC.Sound(env, after)
    requires CC.Shrank(before, after, lbZone, gatewayZone) && CP.IsCleared(env, after, lbZone, gatewayZone)
    ensures CC.NothingOwned(env, after) <==> InZones(env, before, {lbZone}, {gatewayZone})
  {
    if CC.NothingOwned(env, after) {
      hide CC.Sound;
      forall g | CC.OwnGateway(env, before.gateways, g) ensures before.gateways[g].zone == gatewayZone {
        assert g !in after.gateways;
      }
      forall i | CC.OwnGatewayIP(env, before.gatewayIPs, i) ensures before.gatewayIPs[i].zone == gatewayZone {
        assert i !in after.gatewayIPs;
      }
    }
    if InZones(env, before, {lbZone}, {gatewayZone}) {
      ShrinkingStaysInZones(env, before, after, lbZone, gatewayZone, {lbZone}, {gatewayZone});
      StableZonesLeaveNothing(env, after, lbZone, gatewayZone);
    }
  }

  /** If the zones never changed, clearing the zones of the last pass clears all. */
  lemma StableZonesLeaveNothing(env: CC.Env, st: CC.State, lbZone: string, gatewayZone: string)
    requires CC.Sound(env, st) && InZones(env, st, {lbZone}, {gatewayZone})
              && CP.IsCleared(env, st, lbZone, gatewayZone)
    ensures CC.NothingOwned(env, st)
  {
    assert forall i :: i !in st.lbs;
    assert forall p | p in st.lbIPs :: p in env.theirs.lbIPs;
    assert forall g | g in st.gateways :: g in env.theirs.gateways;
    assert forall i | i in st.gatewayIPs :: i in env.theirs.gatewayIPs;
    forall n | n in st.networks ensures n in env.theirs.networks {
      assert !CC.OwnNetwork(env, st.networks, n);
    }
  }

  /** A teardown leaves exactly what is in the zones it does not look at. */
  ghost predicate LeavesOtherZones(env: CC.Env, before: CC.State, after: CC.State, lbZone: string,
      gatewayZone: string) {
    && (forall i :: i in after.lbs <==> i in before.lbs && before.lbs[i].zone != lbZone)
    && (forall g :: CC.OwnGateway(env, after.gateways, g) <==>
        CC.OwnGateway(env, before.gateways, g) && before.gateways[g].zone != gatewayZone)
    && (forall i :: CC.OwnGatewayIP(env, after.gatewayIPs, i) <==>
        CC.OwnGatewayIP(env, before.gatewayIPs, i) && before.gatewayIPs[i].zone != gatewayZone)
  }

  lemma ClearingLeavesOtherZones(env: CC.Env, before: CC.State, after: CC.State, lbZone: string, gatewayZone: string)
    requires CC.Shrank(before, after, lbZone, gatewayZone) && CP.IsCleared(env, after, lbZone, gatewayZone)
    ensures LeavesOtherZones(env, before, after, lbZone, gatewayZone)
  {
  }

  // ---- The declaration, field by field ----

  predicate WantsNetwork(spec: ClusterSpec) {
    spec.network.Some? && spec.network.value.privateNetwork.Some? && spec.network.value.privateNetwork.value.enabled
  }

  predicate WantsGateway(spec: ClusterSpec) {
    WantsNetwork(spec) && spec.network.value.publicGateway.Some? && spec.network.value.publicGateway.value.enabled
  }

  /** The written zone, else the first failure domain, else the first zone of the region. */
  predicate IsZone(spec: ClusterSpec, written: Option<string>, zone: string) {
    if written.Some? then zone == written.value
    else if |spec.failureDomains| > 0 then zone == spec.failureDomains[0]
    else zone == spec.region + "-1"
  }

  predicate IsLbZone(spec: ClusterSpec, zone: string) {
    IsZone(spec, if spec.loadBalancer.Some? then spec.loadBalancer.value.zone else None, zone)
  }

  predicate IsGatewayZone(spec: ClusterSpec, zone: string) {
    IsZone(spec, if spec.network.Some? && spec.network.value.publicGateway.Some? then
                   spec.network.value.publicGateway.value.zone else None, zone)
  }

  lemma ZonesAreThese(spec: ClusterSpec, zone: string)
    ensures IsLbZone(spec, zone) <==> zone == LoadBalancerZone(spec)
    ensures IsGatewayZone(spec, zone) <==> zone == PublicGatewayZone(spec)
  {
  }

  /** The Private Network of a cluster that is to make one. */
  predicate NetworkAsDeclared(spec: ClusterSpec, theirs: CC.Theirs, st: CC.State, network: Option<string>) {
    WantsNetwork(spec) ==>
      && network.Some?
      && (spec.network.value.privateNetwork.value.id.None? ==>
            network.value in st.networks && network.value !in theirs.networks && st.networks[network.value].dhcp)
  }

  /** The gateway with the given ID, or one that was made, is on the network. One
      that was made is in its zone, and on the supplied IP exactly if there is one. */
  predicate GatewayAsDeclared(spec: ClusterSpec, theirs: CC.Theirs, st: CC.State, network: Option<string>) {
    WantsGateway(spec) ==>
      && network.Some?
      && var gw := spec.network.value.publicGateway.value;
      if gw.id.Some? then (gw.id.value, network.value) in st.gatewayLinks
      else exists g | g in st.gateways && g !in theirs.gateways ::
             && (g, network.value) in st.gatewayLinks && IsGatewayZone(spec, st.gateways[g].zone)
             && st.gateways[g].ip in st.gatewayIPs
             && if gw.ip.Some? then
                  st.gateways[g].ip in theirs.gatewayIPs && st.gatewayIPs[st.gateways[g].ip].address == gw.ip.value
                else st.gateways[g].ip !in theirs.gatewayIPs
  }

  /** The load balancer is in its zone, on the supplied IP exactly if there is
      one, and on the network if there is to be one; its address is the endpoint. */
  predicate LbAsDeclared(spec: ClusterSpec, theirs: CC.Theirs, st: CC.State, network: Option<string>,
      endpoint: string) {
    exists i | i in st.lbs ::
      && IsLbZone(spec, st.lbs[i].zone) && st.lbs[i].ip in st.lbIPs && st.lbIPs[st.lbs[i].ip].address == endpoint
      && (if spec.loadBalancer.Some? && spec.loadBalancer.value.ip.Some? then
            st.lbs[i].ip in theirs.lbIPs && endpoint == spec.loadBalancer.value.ip.value
          else st.lbs[i].ip !in theirs.lbIPs)
      && (WantsNetwork(spec) ==> network.Some? && (i, network.value) in st.lbLinks)
  }

  /** A network and a gateway are made only for a declaration that asks for one and
      does not name an existing one. */
  predicate NothingUnasked(spec: ClusterSpec, theirs: CC.Theirs, st: CC.State) {
    && ((WantsNetwork(spec) && spec.network.value.privateNetwork.value.id.None?)
        || forall n | n in st.networks :: n in theirs.networks)
    && ((WantsGateway(spec) && spec.network.value.publicGateway.value.id.None?)
        || forall g | g in st.gateways :: g in theirs.gateways)
  }

  lemma NothingIsUnasked(spec: ClusterSpec, theirs: CC.Theirs, st: CC.State)
    requires CC.Sound(EnvOf(spec, theirs), st)
    ensures NothingUnasked(spec, theirs, st)
  {
    hide CC.LbsSound, CC.LinksSound;
    var env := EnvOf(spec, theirs);
    forall n | n in st.networks && n !in theirs.networks ensures CC.OwnNetwork(env, st.networks, n) {
    }
    forall g | g in st.gateways && g !in theirs.gateways ensures CC.OwnGateway(env, st.gateways, g) {
    }
  }

  /** What the services built is what the fields of the declaration say. */
  lemma BuiltIsAsDeclared(spec: ClusterSpec, theirs: CC.Theirs, st: CC.State, network: Option<string>, endpoint: string)
    requires CC.Sound(EnvOf(spec, theirs), st)
    requires CP.IsBuilt(EnvOf(spec, theirs), st, LoadBalancerZone(spec), PublicGatewayZone(spec), network, endpoint)
    ensures NetworkAsDeclared(spec, theirs, st, network) && GatewayAsDeclared(spec, theirs, st, network)
    ensures LbAsDeclared(spec, theirs, st, network, endpoint)
  {
    LbBuiltIsAsDeclared(spec, theirs, st, network, endpoint);
    GatewayBuiltIsAsDeclared(spec, theirs, st, network);
    hide GatewayAsDeclared, LbAsDeclared, CC.Sound, CP.GatewayIsBuilt, CP.LbIsBuilt;
  }

  lemma LbBuiltIsAsDeclared(spec: ClusterSpec, theirs: CC.Theirs, st: CC.State, network: Option<string>,
      endpoint: string)
    requires CC.Sound(EnvOf(spec, theirs), st)
    requires CP.LbIsBuilt(EnvOf(spec, theirs), st, LoadBalancerZone(spec), network, endpoint)
    ensures LbAsDeclared(spec, theirs, st, network, endpoint) && (WantsNetwork(spec) ==> network.Some?)
  {
    hide CC.GatewaysSound, CC.NetworksSound, CC.UsedByLb;
    var i :| i in st.lbs
      && st.lbs[i].zone == LoadBalancerZone(spec) && st.lbs[i].ip in st.lbIPs
          && st.lbIPs[st.lbs[i].ip].address == endpoint
      && (HasPrivateNetwork(spec) ==> network.Some? && (i, network.value) in st.lbLinks);
    ZonesAreThese(spec, st.lbs[i].zone);
    hide IsLbZone, IsGatewayZone, LoadBalancerZone, PublicGatewayZone;
  }

  lemma GatewayBuiltIsAsDeclared(spec: ClusterSpec, theirs: CC.Theirs, st: CC.State, network: Option<string>)
    requires CC.Sound(EnvOf(spec, theirs), st)
    requires CP.GatewayIsBuilt(EnvOf(spec, theirs), st, PublicGatewayZone(spec), network)
    ensures GatewayAsDeclared(spec, theirs, st, network)
  {
    hide CC.LbsSound, CC.NetworksSound;
    if WantsGateway(spec) && spec.network.value.publicGateway.value.id.None? {
      var env := EnvOf(spec, theirs);
      var l :| l in st.gatewayLinks && l.1 == network.value && CC.OwnGateway(env, st.gateways, l.0)
               && st.gateways[l.0].zone == PublicGatewayZone(spec);
      ZonesAreThese(spec, st.gateways[l.0].zone);
      assert l == (l.0, network.value);
      hide IsLbZone, IsGatewayZone, LoadBalancerZone, PublicGatewayZone;
    }
  }

  lemma LetsInMeans(spec: ClusterSpec, theirs: CC.Theirs, st: CC.State, zones: seq<string>, network: Option<string>,
      acls: AC.Acls)
    requires CP.LetsInAsDeclared(EnvOf(spec, theirs), st, zones, network, acls, AllowedRangesOf(spec))
    ensures CP.AdmitsExactly(st, zones, if WantsNetwork(spec) then network else None, acls,
                             if spec.loadBalancer.Some? then spec.loadBalancer.value.allowedRanges else [])
  {
    hide CP.AdmitsExactly, AC.FixedEntriesAre, CP.GatewaysAre;
  }

  /** What the services say of the network, and after success of everything but
      the serving. `status` is the network that the status held before. */
  ghost predicate Served(spec: ClusterSpec, theirs: CC.Theirs, st: CC.State, status: Option<string>, zones: seq<string>,
      acls: AC.Acls, hadGatewayEntry: bool, built: Result<CP.Built, CC.Failure>, stored: Option<string>)
  {
    var env := EnvOf(spec, theirs);
    && (stored == status
        || (env.managedNetwork && stored.Some? && CC.OwnNetwork(env, st.networks, stored.value)))
    && (built.Ok? ==> AllBuilt(spec, theirs, st, stored, built.value.endpoint))
    && (built.Ok? && (HasPrivateNetwork(spec) || !hadGatewayEntry) ==> LetsInAll(spec, theirs, st, zones, stored, acls))
    && (built == Err(CC.NotReady) && env.managedNetwork ==>
          stored.Some? && CC.OwnNetwork(env, st.networks, stored.value))
    && (built == Err(CC.NilDereference) ==>
        HasPrivateNetwork(spec) && !ShouldManagePrivateNetwork(spec) && status.None?)
    && (HasPrivateNetwork(spec) && !ShouldManagePrivateNetwork(spec) && status.None? ==> built.Err?)
    && (built.Err? && built.error !in {CC.ApiFailure, CC.NotReady, CC.NilDereference} ==>
          StandsInTheWay(spec, theirs, st))
  }

  /** Everything is built, as the services see it and field by field. */
  ghost predicate AllBuilt(spec: ClusterSpec, theirs: CC.Theirs, st: CC.State, network: Option<string>,
      endpoint: string) {
    && CP.IsBuilt(EnvOf(spec, theirs), st, LoadBalancerZone(spec), PublicGatewayZone(spec), network, endpoint)
    && NetworkAsDeclared(spec, theirs, st, network) && GatewayAsDeclared(spec, theirs, st, network)
    && LbAsDeclared(spec, theirs, st, network, endpoint)
  }

  /** Exactly the declared is let in, as the services see it and field by field. */
  ghost predicate LetsInAll(spec: ClusterSpec, theirs: CC.Theirs, st: CC.State, zones: seq<string>,
      network: Option<string>, acls: AC.Acls)
  {
    && CP.LetsInAsDeclared(EnvOf(spec, theirs), st, zones, network, acls, AllowedRangesOf(spec))
    && CP.AdmitsExactly(st, zones, if WantsNetwork(spec) then network else None, acls,
                        if spec.loadBalancer.Some? then spec.loadBalancer.value.allowedRanges else [])
  }

  lemma ServicesServe(spec: ClusterSpec, theirs: CC.Theirs, st: CC.State, status: Option<string>, zones: seq<string>,
      acls: AC.Acls, hadGatewayEntry: bool, built: Result<CP.Built, CC.Failure>, stored: Option<string>)
    requires CC.Sound(EnvOf(spec, theirs), st)
    requires var env := EnvOf(spec, theirs);
      && (stored == status
          || (env.managedNetwork && stored.Some? && CC.OwnNetwork(env, st.networks, stored.value)))
      && (built.Ok? ==>
            CP.IsBuilt(env, st, LoadBalancerZone(spec), PublicGatewayZone(spec), stored, built.value.endpoint))
      && (built.Ok? && (env.hasNetwork || !hadGatewayEntry) ==>
            CP.LetsInAsDeclared(env, st, zones, stored, acls, AllowedRangesOf(spec)))
      && (built == Err(CC.NotReady) && env.managedNetwork ==>
            stored.Some? && CC.OwnNetwork(env, st.networks, stored.value))
      && (built == Err(CC.NilDereference) ==> env.hasNetwork && !env.managedNetwork && status.None?)
      && (env.hasNetwork && !env.managedNetwork && status.None? ==> built.Err?)
      && (built.Err? && built.error !in {CC.ApiFailure, CC.NotReady, CC.NilDereference} ==>
            CP.CannotBuild(env, st, LoadBalancerZone(spec), PublicGatewayZone(spec)))
    ensures Served(spec, theirs, st, status, zones, acls, hadGatewayEntry, built, stored)
  {
    var env := EnvOf(spec, theirs);
    assert env.hasNetwork == HasPrivateNetwork(spec) && env.managedNetwork == ShouldManagePrivateNetwork(spec);
    hide CC.Sound, CP.IsBuilt, CP.LetsInAsDeclared, CP.CannotBuild, CP.AdmitsExactly, EnvOf, HasPrivateNetwork,
      ShouldManagePrivateNetwork, LoadBalancerZone, PublicGatewayZone, AllowedRangesOf, NetworkAsDeclared,
      GatewayAsDeclared, LbAsDeclared, StandsInTheWay, WantsNetwork, CC.OwnNetwork;
    if built.Ok? {
      BuiltIsAsDeclared(spec, theirs, st, stored, built.value.endpoint);
      if HasPrivateNetwork(spec) || !hadGatewayEntry { LetsInMeans(spec, theirs, st, zones, stored, acls); }
    } else if built.error !in {CC.ApiFailure, CC.NotReady, CC.NilDereference} {
      CannotBuildMeans(spec, theirs, st);
    }
  }

  /** A teardown that went through leaves what the user supplied and what is in
      other zones, and nothing else; a supplied IP is never released, an
      automatic one goes with its load balancer. */
  ghost predicate LeavesExactly(spec: ClusterSpec, theirs: CC.Theirs, o: CC.State, p: CC.State) {
    && LeavesLbs(spec, o, p) && LeavesGateways(spec, theirs, o, p) && LeavesGatewayIPs(spec, theirs, o, p)
    && LeavesNetworks(theirs, o, p) && LeavesLbIPs(spec, theirs, o, p)
    && CC.Sub(p.lbs, o.lbs) && CC.Sub(p.gateways, o.gateways) && CC.Sub(p.lbIPs, o.lbIPs)
    && CC.Sub(p.gatewayIPs, o.gatewayIPs) && CC.Sub(p.networks, o.networks)
  }

  ghost predicate LeavesLbs(spec: ClusterSpec, o: CC.State, p: CC.State) {
    forall i :: i in p.lbs <==> i in o.lbs && !IsLbZone(spec, o.lbs[i].zone)
  }

  ghost predicate LeavesGateways(spec: ClusterSpec, theirs: CC.Theirs, o: CC.State, p: CC.State) {
    forall g :: g in p.gateways <==>
      g in o.gateways && (g in theirs.gateways || !IsGatewayZone(spec, o.gateways[g].zone))
  }

  ghost predicate LeavesGatewayIPs(spec: ClusterSpec, theirs: CC.Theirs, o: CC.State, p: CC.State) {
    forall i :: i in p.gatewayIPs <==>
      i in o.gatewayIPs && (i in theirs.gatewayIPs || !IsGatewayZone(spec, o.gatewayIPs[i].zone))
  }

  ghost predicate LeavesNetworks(theirs: CC.Theirs, o: CC.State, p: CC.State) {
    forall n :: n in p.networks <==> n in o.networks && n in theirs.networks
  }

  ghost predicate LeavesLbIPs(spec: ClusterSpec, theirs: CC.Theirs, o: CC.State, p: CC.State) {
    && (forall a :: a in p.lbIPs <==> a in o.lbIPs && (a in theirs.lbIPs || exists i | i in p.lbs :: p.lbs[i].ip == a))
    && (spec.loadBalancer.Some? && spec.loadBalancer.value.ip.Some? ==> p.lbIPs == o.lbIPs)
  }

  lemma TeardownLeavesExactly(spec: ClusterSpec, theirs: CC.Theirs, o: CC.State, p: CC.State)
    requires CC.Sound(EnvOf(spec, theirs), o) && CC.Sound(EnvOf(spec, theirs), p)
    requires CC.Shrank(o, p, LoadBalancerZone(spec), PublicGatewayZone(spec))
    requires CP.IsCleared(EnvOf(spec, theirs), p, LoadBalancerZone(spec), PublicGatewayZone(spec))
    ensures LeavesExactly(spec, theirs, o, p)
  {
    LbsLeft(spec, theirs, o, p);
    assert forall n :: !CC.OwnNetwork(EnvOf(spec, theirs), p.networks, n);
    hide IsLbZone, IsGatewayZone, LoadBalancerZone, PublicGatewayZone, CC.Sound, CC.Shrank, CP.IsCleared, CC.Sub, EnvOf,
      CC.OwnNetwork, LeavesLbs, LeavesGateways, LeavesGatewayIPs, LeavesNetworks, LeavesLbIPs;
    LbIPsLeft(spec, theirs, o, p);
    NetworksLeft(spec, theirs, o, p);
    GatewaysLeft(spec, theirs, o, p);
    GatewayIPsLeft(spec, theirs, o, p);
  }

  lemma LbsLeft(spec: ClusterSpec, theirs: CC.Theirs, o: CC.State, p: CC.State)
    requires CC.Shrank(o, p, LoadBalancerZone(spec), PublicGatewayZone(spec))
    requires CP.IsCleared(EnvOf(spec, theirs), p, LoadBalancerZone(spec), PublicGatewayZone(spec))
    ensures LeavesLbs(spec, o, p)
    ensures CC.Sub(p.lbs, o.lbs) && CC.Sub(p.gateways, o.gateways) && CC.Sub(p.lbIPs, o.lbIPs)
            && CC.Sub(p.gatewayIPs, o.gatewayIPs) && CC.Sub(p.networks, o.networks)
  {
    forall i ensures i in p.lbs <==> i in o.lbs && !IsLbZone(spec, o.lbs[i].zone) {
      if i in o.lbs { ZonesAreThese(spec, o.lbs[i].zone); }
      hide IsLbZone, IsGatewayZone, LoadBalancerZone, PublicGatewayZone, EnvOf;
    }
  }

  lemma GatewaysLeft(spec: ClusterSpec, theirs: CC.Theirs, o: CC.State, p: CC.State)
    requires CC.Sound(EnvOf(spec, theirs), p)
    requires CC.Shrank(o, p, LoadBalancerZone(spec), PublicGatewayZone(spec))
    requires CP.IsCleared(EnvOf(spec, theirs), p, LoadBalancerZone(spec), PublicGatewayZone(spec))
    ensures LeavesGateways(spec, theirs, o, p)
  {
    hide CC.LbsSound, CC.GatewaysSound, CC.NetworksSound, CC.LinksSound;
    forall g ensures g in p.gateways <==>
                       g in o.gateways && (g in theirs.gateways || !IsGatewayZone(spec, o.gateways[g].zone)) {
      if g in o.gateways { ZonesAreThese(spec, o.gateways[g].zone); }
      if g in p.gateways && g !in theirs.gateways { assert CC.OwnGateway(EnvOf(spec, theirs), p.gateways, g); }
      hide IsGatewayZone, PublicGatewayZone, LoadBalancerZone;
    }
  }

  lemma GatewayIPsLeft(spec: ClusterSpec, theirs: CC.Theirs, o: CC.State, p: CC.State)
    requires CC.Sound(EnvOf(spec, theirs), p)
    requires CC.Shrank(o, p, LoadBalancerZone(spec), PublicGatewayZone(spec))
    requires CP.IsCleared(EnvOf(spec, theirs), p, LoadBalancerZone(spec), PublicGatewayZone(spec))
    ensures LeavesGatewayIPs(spec, theirs, o, p)
  {
    hide CC.LbsSound, CC.GatewaysSound, CC.NetworksSound, CC.LinksSound;
    forall i ensures i in p.gatewayIPs <==>
                       i in o.gatewayIPs && (i in theirs.gatewayIPs || !IsGatewayZone(spec, o.gatewayIPs[i].zone)) {
      if i in o.gatewayIPs { ZonesAreThese(spec, o.gatewayIPs[i].zone); }
      if i in p.gatewayIPs && i !in theirs.gatewayIPs { assert CC.OwnGatewayIP(EnvOf(spec, theirs), p.gatewayIPs, i); }
      hide IsGatewayZone, PublicGatewayZone, LoadBalancerZone;
    }
  }

  lemma NetworksLeft(spec: ClusterSpec, theirs: CC.Theirs, o: CC.State, p: CC.State)
    requires CC.Sound(EnvOf(spec, theirs), p) && CC.Sub(p.networks, o.networks)
    requires forall n :: !CC.OwnNetwork(EnvOf(spec, theirs), p.networks, n)
    ensures LeavesNetworks(theirs, o, p)
  {
    hide CC.LbsSound, CC.GatewaysSound, CC.LinksSound;
    forall n | n in p.networks ensures n in theirs.networks {
      assert !CC.OwnNetwork(EnvOf(spec, theirs), p.networks, n);
    }
  }

  lemma LbIPsLeft(spec: ClusterSpec, theirs: CC.Theirs, o: CC.State, p: CC.State)
    requires CC.Sound(EnvOf(spec, theirs), o) && CC.Sound(EnvOf(spec, theirs), p) && CC.Sub(p.lbIPs, o.lbIPs)
    ensures LeavesLbIPs(spec, theirs, o, p)
  {
    hide CC.GatewaysSound, CC.NetworksSound, CC.LinksSound;
    forall a | a in p.lbIPs && a !in theirs.lbIPs ensures exists i | i in p.lbs :: p.lbs[i].ip == a {
      assert CC.UsedByLb(p.lbs, a);
    }
    if spec.loadBalancer.Some? && spec.loadBalancer.value.ip.Some? {
      forall a | a in o.lbIPs ensures a in theirs.lbIPs {
        assert a in theirs.lbIPs || CC.UsedByLb(o.lbs, a);
      }
    }
  }

  /** The zones of the pass are clear, what remains is what was in other zones or
      the user's, and that is nothing exactly if all was in the zones of the pass. */
  ghost predicate TornDown(spec: ClusterSpec, theirs: CC.Theirs, o: CC.State, p: CC.State) {
    var env, lbZone, gatewayZone := EnvOf(spec, theirs), LoadBalancerZone(spec), PublicGatewayZone(spec);
    && CP.IsCleared(env, p, lbZone, gatewayZone) && LeavesOtherZones(env, o, p, lbZone, gatewayZone)
    && (CC.NothingOwned(env, p) <==> InZones(env, o, {lbZone}, {gatewayZone}))
    && LeavesExactly(spec, theirs, o, p)
  }

  lemma ClearedIsTornDown(spec: ClusterSpec, theirs: CC.Theirs, o: CC.State, p: CC.State, lbZones: set<string>,
      gatewayZones: set<string>)
    requires var env, lbZone, gatewayZone := EnvOf(spec, theirs), LoadBalancerZone(spec), PublicGatewayZone(spec);
      && CC.Sound(env, o) && CC.Sound(env, p) && CC.Shrank(o, p, lbZone, gatewayZone)
      && CP.IsCleared(env, p, lbZone, gatewayZone) && InZones(env, p, lbZones, gatewayZones)
    ensures TornDown(spec, theirs, o, p)
    ensures lbZones <= {LoadBalancerZone(spec)} && gatewayZones <= {PublicGatewayZone(spec)} ==>
              CC.NothingOwned(EnvOf(spec, theirs), p)
  {
    hide EnvOf, LoadBalancerZone, PublicGatewayZone, CC.Sound, CC.Shrank, CP.IsCleared, InZones, CC.NothingOwned,
      LeavesOtherZones, LeavesExactly;
    var env, lbZone, gatewayZone := EnvOf(spec, theirs), LoadBalancerZone(spec), PublicGatewayZone(spec);
    AllClear(env, p, lbZone, gatewayZone, lbZones, gatewayZones);
    NothingIsLeftExactlyWhenInZones(env, o, p, lbZone, gatewayZone);
    ClearingLeavesOtherZones(env, o, p, lbZone, gatewayZone);
    TeardownLeavesExactly(spec, theirs, o, p);
  }

  /** What keeps a pass from succeeding although no request fails: a supplied IP
      is not there to be used, or the managed network has no DHCP. */
  predicate StandsInTheWay(spec: ClusterSpec, theirs: CC.Theirs, st: CC.State) {
    || (spec.loadBalancer.Some? && spec.loadBalancer.value.ip.Some?
        && forall i | i in st.lbIPs && i in theirs.lbIPs && IsLbZone(spec, st.lbIPs[i].zone) ::
             st.lbIPs[i].address != spec.loadBalancer.value.ip.value)
    || (WantsGateway(spec) && spec.network.value.publicGateway.value.id.None?
        && spec.network.value.publicGateway.value.ip.Some?
        && forall i | i in st.gatewayIPs && i in theirs.gatewayIPs && IsGatewayZone(spec, st.gatewayIPs[i].zone)
                      && st.gatewayIPs[i].address == spec.network.value.publicGateway.value.ip.value ::
             exists g | g in st.gateways :: st.gateways[g].ip == i)
    || (WantsNetwork(spec) && spec.network.value.privateNetwork.value.id.None?
        && exists n | n in st.networks && n !in theirs.networks :: !st.networks[n].dhcp)
  }

  lemma CannotBuildMeans(spec: ClusterSpec, theirs: CC.Theirs, st: CC.State)
    requires CC.Sound(EnvOf(spec, theirs), st)
    requires CP.CannotBuild(EnvOf(spec, theirs), st, LoadBalancerZone(spec), PublicGatewayZone(spec))
    ensures StandsInTheWay(spec, theirs, st)
  {
    forall zone ensures IsLbZone(spec, zone) <==> zone == LoadBalancerZone(spec)
                ensures IsGatewayZone(spec, zone) <==> zone == PublicGatewayZone(spec) {
      ZonesAreThese(spec, zone);
    }
    hide IsLbZone, IsGatewayZone, LoadBalancerZone, PublicGatewayZone, CC.LbsSound, CC.GatewaysSound, CC.LinksSound;
    var env := EnvOf(spec, theirs);
    if n :| CC.OwnNetwork(env, st.networks, n) && !st.networks[n].dhcp {
      assert n in st.networks && n !in theirs.networks;
    }
  }

  // ---- A failure domain that moves ----

  const PARIS: seq<string> := ["fr-par-1", "fr-par-2"]

  /** A cluster in Paris whose only failure domain is the given zone. */
  function InParis(zone: string): ClusterSpec {
    ClusterSpec("fr-par", "secret", [zone], None, None)
  }

  /** The load balancer such a cluster got on an automatic IP. */
  function BuiltInParis(zone: string): CC.State {
    CC.State(map["lb" := CC.Lb(zone, "ip")], map["ip" := CC.Ip(zone, "192.0.2.1")], map[], map[], map[], {}, {})
  }

  /** Moving the failure domain from one zone of the region to another is an
      admitted update, and after it every teardown that succeeds leaves the load
      balancer and its IP behind. */
  lemma MovedFailureDomainLeavesALb(geo: Geography, after: CC.State)
    requires "fr-par" in geo && geo["fr-par"] == PARIS
    ensures var before, now := InParis("fr-par-1"), InParis("fr-par-2");
            && W.FailureDomainsAreWellFormed(before, geo) && W.FailureDomainsAreWellFormed(now, geo)
            && W.NetworkIsWellFormed(now, geo) && W.SameImmutableFields(before, now)
    ensures var now := InParis("fr-par-2");
            var env, st := EnvOf(now, CC.Theirs({}, {}, {}, {})), BuiltInParis(LoadBalancerZone(InParis("fr-par-1")));
            && CC.Sound(env, st)
            && CC.Shrank(st, st, LoadBalancerZone(now), PublicGatewayZone(now))
                && CP.IsCleared(env, st, LoadBalancerZone(now), PublicGatewayZone(now))
            && (CC.Sound(env, after) && CC.Shrank(st, after, LoadBalancerZone(now), PublicGatewayZone(now))
                && CP.IsCleared(env, after, LoadBalancerZone(now), PublicGatewayZone(now)) ==>
                  "lb" in after.lbs && "ip" in after.lbIPs && !CC.NothingOwned(env, after))
  {
    MovingIsAdmitted(geo);
    DifferentZones();
    var env := EnvOf(InParis("fr-par-2"), CC.Theirs({}, {}, {}, {}));
    hide CC.Sound, CC.Shrank, CP.IsCleared, W.FailureDomainsAreWellFormed, W.NetworkIsWellFormed, W.SameImmutableFields,
        CC.NothingOwned;
    OneLbIsSound(env, "fr-par-1", "fr-par-2");
    if CC.Sound(env, after) && CC.Shrank(BuiltInParis("fr-par-1"), after, "fr-par-2", "fr-par-2") {
      OneLbIsLeft(env, "fr-par-1", "fr-par-2", after);
    }
  }

  lemma MovingIsAdmitted(geo: Geography)
    requires "fr-par" in geo && geo["fr-par"] == PARIS
    ensures var before, now := InParis("fr-par-1"), InParis("fr-par-2");
            && W.FailureDomainsAreWellFormed(before, geo) && W.FailureDomainsAreWellFormed(now, geo)
            && W.NetworkIsWellFormed(now, geo) && W.SameImmutableFields(before, now)
  {
    assert PARIS[0] == "fr-par-1" && PARIS[1] == "fr-par-2";
    assert PARIS[0] in geo["fr-par"] && PARIS[1] in geo["fr-par"];
  }

  lemma OneLbIsLeft(env: CC.Env, a: string, b: string, after: CC.State)
    requires a != b && CC.Sound(env, after) && CC.Shrank(BuiltInParis(a), after, b, b)
    ensures "lb" in after.lbs && "ip" in after.lbIPs && !CC.NothingOwned(env, after)
  {
    var st, lb: string := BuiltInParis(a), "lb";
    assert lb in st.lbs && st.lbs[lb] == CC.Lb(a, "ip");
    assert lb in after.lbs && after.lbs[lb] == st.lbs[lb];
    LbKeepsItsIP(env, after, lb);
  }

  lemma DifferentZones()
    ensures "fr-par-1" != "fr-par-2"
  {
    assert "fr-par-1"[7] != "fr-par-2"[7];
  }

  lemma LbKeepsItsIP(env: CC.Env, st: CC.State, lb: string)
    requires CC.Sound(env, st) && lb in st.lbs
    ensures st.lbs[lb].ip in st.lbIPs
  {
  }

  lemma OneLbIsSound(env: CC.Env, a: string, b: string)
    requires env.theirs == CC.Theirs({}, {}, {}, {}) && env.lbIP.None? && a != b
    ensures CC.Sound(env, BuiltInParis(a)) && CP.IsCleared(env, BuiltInParis(a), b, b)
              && !CC.NothingOwned(env, BuiltInParis(a))
    ensures CC.Shrank(BuiltInParis(a), BuiltInParis(a), b, b)
  {
    var lb: string, ip: string := "lb", "ip";
    var st := BuiltInParis(a);
    assert lb in st.lbs && st.lbs[lb].ip == ip;
    assert CC.UsedByLb(st.lbs, ip);
    assert CC.LbsSound(env, st.lbs, st.lbIPs);
    hide CC.LbsSound;
    assert CC.GatewaysSound(env, st.gateways, st.gatewayIPs) && CC.NetworksSound(env, st.networks);
    assert CC.Sound(env, st);
  }

  /** The stored cluster object with what the cloud holds for it. */
  class ManagedCluster {
    const name: string
    const geo: Geography
    const theirs: CC.Theirs
    // The zones of the instance API and of the gateway API.
    const instanceZones: seq<string>
    const gatewayApiZones: seq<string>
    const cloud: CC.CloudApi
    const groups: SG.GroupCloud

    var spec: ClusterSpec
    var finalizer: bool
    var gone: bool
    var statusNetwork: Option<string>
    var endpoint: Option<string>
    var port: int
    var ready: bool
    // The zones in which passes have worked.
    ghost var lbZones: set<string>
    ghost var gatewayZones: set<string>
    // Patches of the object that did not succeed.
    ghost var failures: nat

    function DesiredGroups(specs: seq<SecurityRules.GroupSpec>): SG.Desired
      reads this
    {
      SG.Desired(name, specs, ZonesFor(geo, spec.region, instanceZones))
    }

    /** Nothing of the cluster's is in the cloud that no finalizer guards. */
    ghost predicate Valid()
      reads this, cloud, groups
    {
      && cloud.Valid() && groups.Valid()
      && cloud.env == EnvOf(spec, theirs)
      && W.NetworkIsWellFormed(spec, geo)
      && SG.NoDuplicates(groups.groups, DesiredGroups([]))
      && InZones(cloud.env, cloud.st, lbZones, gatewayZones)
      && (finalizer || gone || (CC.NothingOwned(cloud.env, cloud.st) && NoGroups(groups.groups, DesiredGroups([]))))
    }

    /** A new cluster object, before the controller has seen it. */
    constructor (name: string, geo: Geography, theirs: CC.Theirs, instanceZones: seq<string>,
        gatewayApiZones: seq<string>,
                 cloud: CC.CloudApi, groups: SG.GroupCloud, spec: ClusterSpec)
      requires cloud.Valid() && groups.Valid() && cloud.env == EnvOf(spec, theirs) && W.NetworkIsWellFormed(spec, geo)
      requires CC.NothingOwned(cloud.env, cloud.st)
      requires NoGroups(groups.groups, SG.Desired(name, [], ZonesFor(geo, spec.region, instanceZones)))
      requires SG.NoDuplicates(groups.groups, SG.Desired(name, [], ZonesFor(geo, spec.region, instanceZones)))
      ensures Valid() && !finalizer && !gone && this.spec == spec && this.cloud == cloud && this.groups == groups
    {
      this.name, this.geo, this.theirs, this.cloud, this.groups, this.spec := name, geo, theirs, cloud, groups, spec;
      this.instanceZones, this.gatewayApiZones := instanceZones, gatewayApiZones;
      finalizer, gone, statusNetwork, endpoint, port, ready := false, false, None, None, 0, false;
      lbZones, gatewayZones, failures := {}, {}, 0;
    }

    /** How many requests of any kind did not succeed so far. */
    ghost function Failures(balancer: LB.LoadBalancer, list: AclPass.AclList): nat
      reads this, cloud, groups, balancer, list
    {
      failures + cloud.failures + groups.failures + balancer.failures + list.failures
    }

    /** A pass that does not finish has a reason: a request that did not succeed,
        a load balancer that is not ready, or something that stands in the way. */
    ghost predicate HasReason(done: Done, before: nat, now: nat, waits: nat)
      reads this, cloud
    {
      && before <= now && waits <= cloud.waits
      && (done == Failed ==> before < now || StandsInTheWay(spec, theirs, cloud.st))
      && (done == Requeue ==> waits < cloud.waits)
    }

    /** An admitted update of the declaration. */
    method Update(next: ClusterSpec)
      requires Valid() && W.SameImmutableFields(spec, next) && W.NetworkIsWellFormed(next, geo)
      modifies this`spec
      ensures Valid() && spec == next
    {
      assert spec.region == next.region;
      hide W.SameImmutableFields, W.NetworkIsWellFormed, CC.Sound, CC.NothingOwned, InZones, NoGroups, SG.NoDuplicates,
          ZonesFor;
      UpdatesKeepTheEnv(spec, next, theirs);
      spec := next;
    }

    /** reconcileNormal: the finalizer is stored before anything is made; then
        security groups, network, gateway and load balancer, in this order.
        `balancer` and `list` are what the load balancer of the declared zone has
        behind it. */
    method ReconcileNormal(balancer: LB.LoadBalancer, list: AclPass.AclList) returns (done: Done)
      requires Valid() && !gone && balancer.Valid() && list.Valid()
      modifies this, cloud, groups, balancer, list
      ensures Valid() && !gone && spec == old(spec)
      ensures old(finalizer) ==> finalizer
      ensures !finalizer ==> cloud.st == old(cloud.st) && groups.groups == old(groups.groups)
      ensures SG.OthersUntouched(old(groups.groups), groups.groups, DesiredGroups(SecurityGroupsOf(spec)))
      ensures CC.Grew(old(cloud.st), cloud.st, LoadBalancerZone(spec), PublicGatewayZone(spec))
      ensures balancer.Valid() && list.Valid() && AclPass.Extends(old(list.log), list.log)
      ensures CP.NobodyIsLockedOut(list, |old(list.log)|, old(list.acls), AllowedRangesOf(spec))
      ensures Ends(done, old(statusNetwork), AC.Has(old(list.acls), PUBLIC_GATEWAY), balancer, list)
      ensures HasReason(done, old(Failures(balancer, list)), Failures(balancer, list), old(cloud.waits))
      ensures done == Finished ==> SG.Converged(groups.groups, DesiredGroups(SecurityGroupsOf(spec)))
      ensures SG.OtherClustersKeep(old(groups.groups), groups.groups, name)
      ensures SG.StatefulUnlessBefore(old(groups.groups), groups.groups)
      ensures NothingUnasked(spec, theirs, cloud.st)
      ensures done == Finished ==>
                && finalizer && ready && endpoint.Some? && port == 6443 && CP.IsServing(balancer)
                && NetworkAsDeclared(spec, theirs, cloud.st, statusNetwork)
                && GatewayAsDeclared(spec, theirs, cloud.st, statusNetwork)
                && LbAsDeclared(spec, theirs, cloud.st, statusNetwork, endpoint.value)
      ensures done == Finished && (WantsNetwork(spec) || !AC.Has(old(list.acls), PUBLIC_GATEWAY)) ==>
                CP.AdmitsExactly(cloud.st, ZonesFor(geo, spec.region, gatewayApiZones),
                                 if WantsNetwork(spec) then statusNetwork else None, list.acls,
                                 if spec.loadBalancer.Some? then spec.loadBalancer.value.allowedRanges else [])
      ensures done == Finished ==> SG.GroupsMeanTheSpec(groups.groups, name,
                if spec.network.Some? then spec.network.value.securityGroups else [],
                ZonesFor(geo, spec.region, instanceZones))
    {
      hide W.NetworkIsWellFormed, CC.Sound, CC.NothingOwned, InZones, NoGroups, SG.NoDuplicates, SG.Converged,
        SG.OthersUntouched, CC.Grew, CP.IsBuilt, CP.NobodyIsLockedOut, CP.LetsInAsDeclared, CP.IsServing, ZonesFor;
      UntouchedByNothing(groups.groups, DesiredGroups(SecurityGroupsOf(spec)));
      SG.Unchanged(groups.groups, DesiredGroups(SecurityGroupsOf(spec)));
      GrewByNothing(cloud.st, LoadBalancerZone(spec), PublicGatewayZone(spec));
      CP.NothingNewLocksOut(list, AllowedRangesOf(spec));
      if !finalizer {
        var patched: Outcome := *;
        finalizer := patched != NoEffect;
        if patched != Success {
          failures := failures + 1;
          NothingIsUnasked(spec, theirs, cloud.st);
          return Failed;
        }
      }
      done := BuildAll(balancer, list);
      NothingIsUnasked(spec, theirs, cloud.st);
      if done == Finished {
        SG.ConvergedGroupsMeanTheSpec(groups.groups, DesiredGroups(SecurityGroupsOf(spec)));
      }
    }

    /** The stored network is the one from before or the managed one. */
    ghost predicate StatusIs(was: Option<string>)
      reads this, cloud
    {
      statusNetwork == was
          || (cloud.env.managedNetwork && statusNetwork.Some?
          && CC.OwnNetwork(cloud.env, cloud.st.networks, statusNetwork.value))
    }

    /** Everything the declaration asks for is there and serves. */
    ghost predicate IsReady(balancer: LB.LoadBalancer)
      reads this, cloud, balancer
    {
      && finalizer && ready && endpoint.Some? && port == 6443 && CP.IsServing(balancer)
      && AllBuilt(spec, theirs, cloud.st, statusNetwork, endpoint.value)
    }

    /** The access-control list lets in what is declared and nothing else. */
    ghost predicate LetsIn(list: AclPass.AclList)
      reads this, cloud, list
    {
      LetsInAll(spec, theirs, cloud.st, ZonesFor(geo, spec.region, gatewayApiZones), statusNetwork, list.acls)
    }

    /** A supplied network whose ID is not in the status. */
    predicate SuppliedWithoutStatus(was: Option<string>)
      reads this`spec
    {
      HasPrivateNetwork(spec) && !ShouldManagePrivateNetwork(spec) && was.None?
    }

    /** What the outcome of a pass says. Admitted rules never fail; a requeue knows
        the managed network; a crash is due to a supplied network that the status
        does not hold, and such a pass never succeeds; success means that all is
        there, and that exactly what is declared is let in. */
    ghost predicate Ends(done: Done, was: Option<string>, hadGatewayEntry: bool, balancer: LB.LoadBalancer,
        list: AclPass.AclList)
      reads this, cloud, balancer, list
    {
      && StatusIs(was) && done != BadRule
      && (done == Requeue && ShouldManagePrivateNetwork(spec) ==>
            statusNetwork.Some? && CC.OwnNetwork(cloud.env, cloud.st.networks, statusNetwork.value))
      && (done == Crashed ==> SuppliedWithoutStatus(was))
      && (SuppliedWithoutStatus(was) ==> done != Finished)
      && (done == Finished ==> IsReady(balancer))
      && (done == Finished && (HasPrivateNetwork(spec) || !hadGatewayEntry) ==> LetsIn(list))
    }

    /** Whatever the outcome: nothing went away, and nobody was locked out. */
    twostate predicate Progressed(balancer: LB.LoadBalancer, list: AclPass.AclList)
      reads this, cloud, groups, balancer, list
    {
      && Valid() && !gone && spec == old(spec)
      && CC.Grew(old(cloud.st), cloud.st, LoadBalancerZone(spec), PublicGatewayZone(spec))
      && balancer.Valid() && list.Valid() && AclPass.Extends(old(list.log), list.log)
      && CP.NobodyIsLockedOut(list, |old(list.log)|, old(list.acls), AllowedRangesOf(spec))
    }

    /** What the pass says when it ends, and why. */
    twostate predicate Concluded(done: Done, balancer: LB.LoadBalancer, list: AclPass.AclList)
      reads this, cloud, groups, balancer, list
    {
      && Ends(done, old(statusNetwork), AC.Has(old(list.acls), PUBLIC_GATEWAY), balancer, list)
      && HasReason(done, old(Failures(balancer, list)), Failures(balancer, list), old(cloud.waits))
    }

    /** The services fail for a reason. */
    twostate predicate Accounted(built: Result<CP.Built, CC.Failure>, balancer: LB.LoadBalancer, list: AclPass.AclList)
      reads this, cloud, groups, balancer, list
    {
      && Failures(balancer, list) >= old(Failures(balancer, list)) && cloud.waits >= old(cloud.waits)
      && (built == Err(CC.ApiFailure) ==> Failures(balancer, list) > old(Failures(balancer, list)))
      && (built == Err(CC.NotReady) ==> cloud.waits > old(cloud.waits))
    }

    /** The steps of reconcileNormal behind the finalizer. */
    method BuildAll(balancer: LB.LoadBalancer, list: AclPass.AclList) returns (done: Done)
      requires Valid() && !gone && finalizer && balancer.Valid() && list.Valid()
      modifies this, cloud, groups, balancer, list
      ensures finalizer
      ensures SG.OthersUntouched(old(groups.groups), groups.groups, DesiredGroups(SecurityGroupsOf(spec)))
      ensures Progressed(balancer, list) && Concluded(done, balancer, list)
      ensures done == Finished ==> SG.Converged(groups.groups, DesiredGroups(SecurityGroupsOf(spec)))
      ensures SG.OtherClustersKeep(old(groups.groups), groups.groups, name)
      ensures SG.StatefulUnlessBefore(old(groups.groups), groups.groups)
    {
      hide W.NetworkIsWellFormed, CC.Sound, CC.NothingOwned, InZones, NoGroups, SG.NoDuplicates, SG.Converged,
        SG.OthersUntouched, CC.Grew, CP.IsBuilt, CP.NobodyIsLockedOut, CP.LetsInAsDeclared, CP.IsServing, ZonesFor,
        CC.OwnNetwork, LoadBalancerZone, PublicGatewayZone, AllowedRangesOf, EnvOf, AclPass.AclList.Valid,
        LB.LoadBalancer.Valid, CC.CloudApi.Valid;
      GrewByNothing(cloud.st, LoadBalancerZone(spec), PublicGatewayZone(spec));
      CP.NothingNewLocksOut(list, AllowedRangesOf(spec));
      var ensured := EnsureGroups();
      if ensured.Err? {
        return if ensured.error == SG.ApiFailure then Failed else BadRule;
      }
      done := BuildRest(balancer, list);
    }

    /** The security groups. Admitted rules never fail, so an error is that of a request. */
    method EnsureGroups() returns (r: Result<(), SG.Failure>)
      requires Valid() && finalizer
      modifies groups
      ensures Valid()
      ensures SG.OthersUntouched(old(groups.groups), groups.groups, DesiredGroups(SecurityGroupsOf(spec)))
      ensures r.Ok? ==> SG.Converged(groups.groups, DesiredGroups(SecurityGroupsOf(spec)))
      ensures r.Err? ==> r.error == SG.ApiFailure
      ensures SG.OtherClustersKeep(old(groups.groups), groups.groups, name)
      ensures SG.StatefulUnlessBefore(old(groups.groups), groups.groups)
      ensures groups.failures >= old(groups.failures) + (if r.Ok? then 0 else 1)
    {
      var zones := Zones(geo, spec, instanceZones);
      var d := SG.Desired(name, SecurityGroupsOf(spec), zones);
      AdmittedIsWellPosed(spec, geo, name, zones);
      SameDuplicates(groups.groups, DesiredGroups([]), d);
      hide W.NetworkIsWellFormed, CC.Sound, CC.NothingOwned, InZones, NoGroups, SG.NoDuplicates, SG.Converged,
        SG.OthersUntouched, SG.WellPosed, ZonesFor, EnvOf, SecurityGroupsOf, SecurityRules.ConversionsSucceed,
        CC.CloudApi.Valid;
      r := SG.EnsureSecurityGroups(groups, d);
      SameDuplicates(groups.groups, d, DesiredGroups([]));
    }

    /** The steps of reconcileNormal after the security groups, and the patch of
        the object when the pass ends, however it ends. */
    method BuildRest(balancer: LB.LoadBalancer, list: AclPass.AclList) returns (done: Done)
      requires Valid() && !gone && finalizer && balancer.Valid() && list.Valid()
      modifies this, cloud, balancer, list
      ensures finalizer
      ensures Progressed(balancer, list) && Concluded(done, balancer, list)
    {
      hide W.NetworkIsWellFormed, CC.Sound, CC.NothingOwned, InZones, NoGroups, SG.NoDuplicates, CC.Grew, CP.IsBuilt,
          CP.NobodyIsLockedOut,
        CP.LetsInAsDeclared, CP.IsServing, CC.OwnNetwork, ZonesFor, AclPass.AclList.Valid, LB.LoadBalancer.Valid;
      assert cloud.env.hasNetwork == HasPrivateNetwork(spec)
          && cloud.env.managedNetwork == ShouldManagePrivateNetwork(spec);
      hide CP.AdmitsExactly, NetworkAsDeclared, GatewayAsDeclared, LbAsDeclared, StandsInTheWay, WantsNetwork;
      hide EnvOf, HasPrivateNetwork, ShouldManagePrivateNetwork, LoadBalancerZone, PublicGatewayZone, AllowedRangesOf,
          ManagedCluster.Valid;
      var built, stored := RunServices(balancer, list);
      var patched := Patch(stored, if built.Ok? then Some(built.value.endpoint) else None,
                           if built.Ok? then built.value.port else 0);
      done := if built.Err? && built.error == CC.NilDereference then Crashed
              else if !patched then Failed
              else if built.Ok? then Finished
              else if built.error == CC.NotReady then Requeue
              else Failed;
    }

    /** The deferred patch: the network of the status, and after success the
        endpoint and readiness. */
    method Patch(network: Option<string>, host: Option<string>, hostPort: int) returns (ok: bool)
      requires Valid()
      modifies this`statusNetwork, this`endpoint, this`port, this`ready, this`failures
      ensures Valid() && failures == old(failures) + (if ok then 0 else 1)
      ensures statusNetwork == network || (!ok && statusNetwork == old(statusNetwork))
      ensures ok && host.Some? ==> endpoint == host && port == hostPort && ready
    {
      hide W.NetworkIsWellFormed, CC.Sound, CC.NothingOwned, InZones, NoGroups, SG.NoDuplicates, ZonesFor, EnvOf;
      var patched: Outcome := *;
      if patched != NoEffect {
        statusNetwork := network;
        if host.Some? {
          endpoint, port, ready := host, hostPort, true;
        }
      }
      ok := patched == Success;
      failures := failures + (if ok then 0 else 1);
    }

    /** vpc, vpcgw and loadbalancer, and the zones they worked in. */
    method RunServices(balancer: LB.LoadBalancer, list: AclPass.AclList)
        returns (built: Result<CP.Built, CC.Failure>, stored: Option<string>)
      requires Valid() && !gone && finalizer && balancer.Valid() && list.Valid()
      modifies this`lbZones, this`gatewayZones, cloud, balancer, list
      ensures Progressed(balancer, list)
      ensures Served(spec, theirs, cloud.st, statusNetwork, ZonesFor(geo, spec.region, gatewayApiZones), list.acls,
                     AC.Has(old(list.acls), PUBLIC_GATEWAY), built, stored)
      ensures built.Ok? ==> CP.IsServing(balancer) && built.value.port == 6443
      ensures Accounted(built, balancer, list)
    {
      hide W.NetworkIsWellFormed, CC.Sound, CC.NothingOwned, InZones, NoGroups, SG.NoDuplicates, CC.Grew,
        CP.NobodyIsLockedOut, CP.IsServing, ZonesFor, EnvOf, LoadBalancerZone, PublicGatewayZone, AllowedRangesOf,
        AclPass.AclList.Valid, LB.LoadBalancer.Valid, Served, AC.Has, AclPass.Extends;
      ghost var o := cloud.st;
      built, stored := BuildServices(balancer, list);
      ghost var lbZone, gatewayZone := LoadBalancerZone(spec), PublicGatewayZone(spec);
      WiderZones(cloud.env, o, lbZones, gatewayZones, lbZone, gatewayZone);
      lbZones, gatewayZones := lbZones + {lbZone}, gatewayZones + {gatewayZone};
      GrowingStaysInZones(cloud.env, o, cloud.st, lbZone, gatewayZone, lbZones, gatewayZones);
    }

    /** vpc, vpcgw and loadbalancer in the zones of the declaration. */
    method BuildServices(balancer: LB.LoadBalancer, list: AclPass.AclList)
        returns (built: Result<CP.Built, CC.Failure>, stored: Option<string>)
      requires cloud.Valid() && cloud.env == EnvOf(spec, theirs) && balancer.Valid() && list.Valid()
      modifies cloud, balancer, list
      ensures cloud.Valid() && balancer.Valid() && list.Valid() && AclPass.Extends(old(list.log), list.log)
      ensures CC.Grew(old(cloud.st), cloud.st, LoadBalancerZone(spec), PublicGatewayZone(spec))
      ensures CP.NobodyIsLockedOut(list, |old(list.log)|, old(list.acls), AllowedRangesOf(spec))
      ensures Served(spec, theirs, cloud.st, statusNetwork, ZonesFor(geo, spec.region, gatewayApiZones), list.acls,
                     AC.Has(old(list.acls), PUBLIC_GATEWAY), built, stored)
      ensures built.Ok? ==> CP.IsServing(balancer) && built.value.port == 6443
      ensures Accounted(built, balancer, list)
    {
      hide CC.Sound, CC.Grew, CP.IsBuilt, CP.NobodyIsLockedOut, CP.LetsInAsDeclared, CP.IsServing, CC.OwnNetwork,
        ZonesFor, CP.CannotBuild, LoadBalancerZone, PublicGatewayZone, AllowedRangesOf, AclPass.AclList.Valid,
        LB.LoadBalancer.Valid, Served, EnvOf, AclPass.Extends;
      ghost var hadEntry := AC.Has(list.acls, PUBLIC_GATEWAY);
      hide AC.Has;
      var zones := Zones(geo, spec, gatewayApiZones);
      built, stored := CP.Build(cloud, LoadBalancerZone(spec), PublicGatewayZone(spec), statusNetwork, zones,
                                balancer, list, AllowedRangesOf(spec));
      ServicesServe(spec, theirs, cloud.st, statusNetwork, zones, list.acls, hadEntry, built, stored);
    }

    /** reconcileDelete: load balancer, gateway, network, security groups, and only
        then the finalizer. Whatever was cut off before, when it goes the zones
        of the pass are clear, and what remains is exactly what was in zones that
        the declaration no longer points to: nothing at all if and only if
        everything was in the zones of the pass. */
    method ReconcileDelete() returns (done: Done)
      requires Valid() && finalizer && !gone
      modifies this, cloud, groups
      ensures Valid() && spec == old(spec) && gone == !finalizer
      ensures CC.Shrank(old(cloud.st), cloud.st, LoadBalancerZone(spec), PublicGatewayZone(spec))
      ensures SG.OthersUntouched(old(groups.groups), groups.groups, DesiredGroups([]))
      ensures done == Finished ==> gone
      ensures gone ==> TornDown(spec, theirs, old(cloud.st), cloud.st) && NoGroups(groups.groups, DesiredGroups([]))
      ensures gone && lbZones <= {LoadBalancerZone(spec)} && gatewayZones <= {PublicGatewayZone(spec)} ==>
                CC.NothingOwned(cloud.env, cloud.st)
      ensures CP.HoldsTheNetwork(cloud.env, old(cloud.st), LoadBalancerZone(spec), PublicGatewayZone(spec)) ==>
                finalizer
      ensures gone ==> NoGroupsLeft(groups.groups, name, ZonesFor(geo, spec.region, instanceZones))
      ensures SG.OtherClustersKeep(old(groups.groups), groups.groups, name)
      ensures done == Failed ==>
                failures + cloud.failures + groups.failures
                > old(failures) + old(cloud.failures) + old(groups.failures)
      ensures done == Requeue ==> cloud.waits > old(cloud.waits) || CP.StillLinked(cloud.env, cloud.st)
      ensures done in {Finished, Failed, Requeue}
    {
      hide W.NetworkIsWellFormed, CC.Sound, CC.NothingOwned, InZones, NoGroups, SG.NoDuplicates, SG.OthersUntouched,
        SG.Converged, CC.Shrank, CP.IsCleared, CP.HoldsTheNetwork, TornDown, ZonesFor, EnvOf, SG.OtherClustersKeep,
        CP.StillLinked, NoGroupsLeft;
      ghost var lbZone, gatewayZone := LoadBalancerZone(spec), PublicGatewayZone(spec);
      ghost var o := cloud.st;
      UntouchedByNothing(groups.groups, DesiredGroups([]));
      SG.Unchanged(groups.groups, DesiredGroups([]));
      var down := CP.TakeDown(cloud, LoadBalancerZone(spec), PublicGatewayZone(spec));
      ShrinkingStaysInZones(cloud.env, o, cloud.st, lbZone, gatewayZone, lbZones, gatewayZones);
      if down.Err? {
        return if down.error == CC.PreconditionFailed then Requeue else Failed;
      }
      var cleared := ClearGroups();
      if !cleared {
        return Failed;
      }
      ClearedIsTornDown(spec, theirs, o, cloud.st, lbZones, gatewayZones);
      var patched: Outcome := *;
      if patched != NoEffect {
        finalizer, gone := false, true;
      }
      failures := failures + (if patched == Success then 0 else 1);
      done := if patched == Success then Finished else Failed;
    }

    /** The security groups on the way down: none is wanted. */
    method ClearGroups() returns (ok: bool)
      requires Valid() && finalizer
      modifies groups
      ensures Valid()
      ensures SG.OthersUntouched(old(groups.groups), groups.groups, DesiredGroups([]))
      ensures SG.OtherClustersKeep(old(groups.groups), groups.groups, name)
      ensures groups.failures >= old(groups.failures) + (if ok then 0 else 1)
      ensures ok ==> NoGroups(groups.groups, DesiredGroups([]))
      ensures ok ==> NoGroupsLeft(groups.groups, name, ZonesFor(geo, spec.region, instanceZones))
    {
      hide W.NetworkIsWellFormed, CC.Sound, CC.NothingOwned, InZones, NoGroups, SG.NoDuplicates, SG.OthersUntouched,
        SG.Converged, SG.OtherClustersKeep, ZonesFor, EnvOf, CC.CloudApi.Valid;
      var zones := Zones(geo, spec, instanceZones);
      var d := SG.Desired(name, [], zones);
      var cleared := SG.EnsureSecurityGroups(groups, d);
      if cleared.Ok? {
        ConvergedOnNothing(groups.groups, d);
        SG.TagAndName(d, 0);
        NoneOfTheTag(groups.groups, d);
      }
      ok := cleared.Ok?;
    }
  }

  lemma AdmittedIsWellPosed(spec: ClusterSpec, geo: Geography, name: string, zones: seq<string>)
    requires W.NetworkIsWellFormed(spec, geo) && Distinct(zones)
    ensures var d := SG.Desired(name, SecurityGroupsOf(spec), zones);
            && SG.WellPosed(d)
            && forall k | 0 <= k < |d.specs| ::
                SecurityRules.ConversionsSucceed(d.specs[k].inbound)
                && SecurityRules.ConversionsSucceed(d.specs[k].outbound)
  {
    hide SecurityRules.ConversionsSucceed;
    W.AdmittedNetworkNeverFails(spec, geo, name);
  }

  lemma SameDuplicates(groups: SG.Groups, a: SG.Desired, b: SG.Desired)
    requires a.cluster == b.cluster
    ensures SG.NoDuplicates(groups, a) == SG.NoDuplicates(groups, b)
  {
  }

  lemma UntouchedByNothing(groups: SG.Groups, d: SG.Desired)
    ensures SG.OthersUntouched(groups, groups, d)
  {
  }

  lemma GrewByNothing(st: CC.State, lbZone: string, gatewayZone: string)
    ensures CC.Grew(st, st, lbZone, gatewayZone)
  {
  }

  lemma WiderZones(env: CC.Env, st: CC.State, lbZones: set<string>, gatewayZones: set<string>, lbZone: string,
      gatewayZone: string)
    requires InZones(env, st, lbZones, gatewayZones)
    ensures InZones(env, st, lbZones + {lbZone}, gatewayZones + {gatewayZone})
  {
  }

  lemma ConvergedOnNothing(groups: SG.Groups, d: SG.Desired)
    requires SG.Converged(groups, d) && d.specs == []
    ensures NoGroups(groups, d)
  {
    assert forall id | id in groups :: !SG.Wanted(groups[id], d);
  }

  lemma AllClear(env: CC.Env, st: CC.State, lbZone: string, gatewayZone: string, lbZones: set<string>,
      gatewayZones: set<string>)
    requires CC.Sound(env, st) && InZones(env, st, lbZones, gatewayZones) && CP.IsCleared(env, st, lbZone, gatewayZone)
    ensures lbZones <= {lbZone} && gatewayZones <= {gatewayZone} ==> CC.NothingOwned(env, st)
  {
    if lbZones <= {lbZone} && gatewayZones <= {gatewayZone} {
      assert InZones(env, st, {lbZone}, {gatewayZone});
      hide CC.Sound, InZones, CP.IsCleared;
      StableZonesLeaveNothing(env, st, lbZone, gatewayZone);
    }
  }
}
