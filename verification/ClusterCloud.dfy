// What a cluster has in the cloud besides its machines and security groups:
// load balancers, gateways, their IPs and Private Networks, the cluster's own
// and those its user supplied.
module ClusterCloud {
  import opened Wrappers
  import opened Api

  /** What the user supplied: these are never the cluster's to delete. */
  datatype Theirs = Theirs(lbIPs: set<string>, gateways: set<string>, gatewayIPs: set<string>, networks: set<string>)

  /** The part of the declaration that no update can change. */
  datatype Env =
    Env(managedNetwork: bool, hasNetwork: bool, hasGateway: bool, gatewayID: Option<string>,
        gatewayIP: Option<string>, lbIP: Option<string>, theirs: Theirs)

  datatype Lb = Lb(zone: string, ip: string)

  datatype Ip = Ip(zone: string, address: string)

  datatype Gateway = Gateway(zone: string, ip: string)

  datatype Network = Network(dhcp: bool)

  /** All by ID. What is not among the user's has the cluster's name or tag. The
      links say which gateway and which load balancer are on which network. */
  datatype State =
    State(lbs: map<string, Lb>, lbIPs: map<string, Ip>, gateways: map<string, Gateway>, gatewayIPs: map<string, Ip>,
          networks: map<string, Network>, gatewayLinks: set<(string, string)>,
          lbLinks: set<(string, string)>)

  // NilDereference is a crash of the pass, not an error it returns.
  datatype Failure = ApiFailure | NotFound | TooManyItems | PreconditionFailed | NotReady | NoDHCP | NilDereference

  // ---- Soundness ----

  predicate OwnsGateway(env: Env) {
    env.hasNetwork && env.hasGateway && env.gatewayID.None?
  }

  predicate OwnGateway(env: Env, gateways: map<string, Gateway>, g: string) {
    g in gateways && g !in env.theirs.gateways
  }

  predicate OwnGatewayIP(env: Env, gatewayIPs: map<string, Ip>, i: string) {
    i in gatewayIPs && i !in env.theirs.gatewayIPs
  }

  predicate OwnNetwork(env: Env, networks: map<string, Network>, n: string) {
    n in networks && n !in env.theirs.networks
  }

  predicate TheirsStay(env: Env, st: State) {
    && env.theirs.lbIPs <= st.lbIPs.Keys && env.theirs.gateways <= st.gateways.Keys
    && env.theirs.gatewayIPs <= st.gatewayIPs.Keys && env.theirs.networks <= st.networks.Keys
  }

  /** One load balancer a zone; an automatic IP goes with its load balancer, and
      a supplied one is used exactly if one was supplied. */
  predicate LbsSound(env: Env, lbs: map<string, Lb>, lbIPs: map<string, Ip>) {
    && (forall i, j | i in lbs && j in lbs && (lbs[i].zone == lbs[j].zone || lbs[i].ip == lbs[j].ip) :: i == j)
    && (forall i | i in lbs :: lbs[i].ip in lbIPs && (lbs[i].ip in env.theirs.lbIPs <==> env.lbIP.Some?))
    && (forall i | i in lbs && env.lbIP.Some? :: lbIPs[lbs[i].ip].address == env.lbIP.value)
    && (forall p | p in lbIPs && p !in env.theirs.lbIPs :: UsedByLb(lbs, p))
  }

  predicate UsedByLb(lbs: map<string, Lb>, p: string) {
    exists i | i in lbs :: lbs[i].ip == p
  }

  /** One own gateway and one tagged IP a zone, and only for a cluster that is to
      have its own gateway. */
  ghost predicate GatewaysSound(env: Env, gateways: map<string, Gateway>, gatewayIPs: map<string, Ip>) {
    && (forall g, h | OwnGateway(env, gateways, g) && OwnGateway(env, gateways, h)
        && gateways[g].zone == gateways[h].zone :: g == h)
    && (forall i, j | OwnGatewayIP(env, gatewayIPs, i) && OwnGatewayIP(env, gatewayIPs, j)
        && gatewayIPs[i].zone == gatewayIPs[j].zone :: i == j)
    && (forall g | OwnGateway(env, gateways, g) :: OwnsGateway(env) && GatewayIPSound(env, gateways[g], gatewayIPs))
    && (forall i | OwnGatewayIP(env, gatewayIPs, i) :: OwnsGateway(env) && env.gatewayIP.None?)
  }

  predicate GatewayIPSound(env: Env, gw: Gateway, gatewayIPs: map<string, Ip>) {
    && gw.ip in gatewayIPs
    && if env.gatewayIP.Some? then gw.ip in env.theirs.gatewayIPs && gatewayIPs[gw.ip].address == env.gatewayIP.value
       else gw.ip !in env.theirs.gatewayIPs && gatewayIPs[gw.ip].zone == gw.zone
  }

  ghost predicate NetworksSound(env: Env, networks: map<string, Network>) {
    && (forall m, n | OwnNetwork(env, networks, m) && OwnNetwork(env, networks, n) :: m == n)
    && (forall n | OwnNetwork(env, networks, n) :: env.managedNetwork)
  }

  predicate LinksSound(st: State) {
    && (forall l | l in st.gatewayLinks :: l.0 in st.gateways && l.1 in st.networks)
    && (forall l | l in st.lbLinks :: l.0 in st.lbs && l.1 in st.networks)
  }

  ghost predicate Sound(env: Env, st: State) {
    && TheirsStay(env, st) && LbsSound(env, st.lbs, st.lbIPs) && GatewaysSound(env, st.gateways, st.gatewayIPs)
    && NetworksSound(env, st.networks) && LinksSound(st)
  }

  /** The cluster has nothing of its own in the cloud. */
  ghost predicate NothingOwned(env: Env, st: State) {
    && st.lbs == map[] && st.lbIPs.Keys <= env.theirs.lbIPs && st.gateways.Keys <= env.theirs.gateways
    && st.gatewayIPs.Keys <= env.theirs.gatewayIPs && st.networks.Keys <= env.theirs.networks
  }

  // ---- Changes of one request ----

  function WithLb(st: State, id: string, zone: string, ip: string): State {
    st.(lbs := st.lbs[id := Lb(zone, ip)])
  }

  function WithLbIP(st: State, ip: string, zone: string, address: string): State {
    st.(lbIPs := st.lbIPs[ip := Ip(zone, address)])
  }

  function LinksWithout(links: set<(string, string)>, id: string): set<(string, string)> {
    set l | l in links && l.0 != id
  }

  function WithoutLb(st: State, id: string, release: bool): State
    requires id in st.lbs
  {
    st.(lbs := st.lbs - {id}, lbIPs := if release then st.lbIPs - {st.lbs[id].ip} else st.lbIPs,
        lbLinks := LinksWithout(st.lbLinks, id))
  }

  function WithoutGateway(st: State, id: string): State {
    st.(gateways := st.gateways - {id}, gatewayLinks := LinksWithout(st.gatewayLinks, id))
  }

  lemma AddingAnLb(env: Env, st: State, id: string, zone: string, ip: string, address: string)
    requires Sound(env, st) && id !in st.lbs && (forall i | i in st.lbs :: st.lbs[i].zone != zone && st.lbs[i].ip != ip)
    requires if env.lbIP.Some? then ip in env.theirs.lbIPs && st.lbIPs[ip].address == env.lbIP.value
              else ip !in st.lbIPs
    ensures Sound(env, WithLb(if env.lbIP.Some? then st else WithLbIP(st, ip, zone, address), id, zone, ip))
  {
    var mid := if env.lbIP.Some? then st else WithLbIP(st, ip, zone, address);
    hide GatewaysSound, NetworksSound;
    MoreLbs(env, st.lbs, st.lbIPs, id, Lb(zone, ip), mid.lbIPs);
    hide LbsSound;
  }

  lemma MoreLbs(env: Env, lbs: map<string, Lb>, lbIPs: map<string, Ip>, id: string, lb: Lb, after: map<string, Ip>)
    requires LbsSound(env, lbs, lbIPs) && id !in lbs
              && (forall i | i in lbs :: lbs[i].zone != lb.zone && lbs[i].ip != lb.ip)
    requires lb.ip in after && after.Keys == lbIPs.Keys + {lb.ip} && (lb.ip in env.theirs.lbIPs <==> env.lbIP.Some?)
    requires env.lbIP.Some? ==> after == lbIPs && lbIPs[lb.ip].address == env.lbIP.value
    ensures LbsSound(env, lbs[id := lb], after)
  {
    var more := lbs[id := lb];
    forall q | q in after && q !in env.theirs.lbIPs ensures UsedByLb(more, q) {
      if q == lb.ip {
        assert more[id].ip == q;
      } else {
        assert UsedByLb(lbs, q);
        var i :| i in lbs && lbs[i].ip == q;
        assert i in more && more[i].ip == q;
      }
    }
    hide UsedByLb;
  }

  lemma DroppingAnLb(env: Env, st: State, id: string)
    requires Sound(env, st) && id in st.lbs
    ensures Sound(env, WithoutLb(st, id, env.lbIP.None?))
  {
    var p := WithoutLb(st, id, env.lbIP.None?);
    hide GatewaysSound, NetworksSound, LbsSound;
    FewerLbs(env, st.lbs, st.lbIPs, id);
  }

  lemma FewerLbs(env: Env, lbs: map<string, Lb>, lbIPs: map<string, Ip>, id: string)
    requires LbsSound(env, lbs, lbIPs) && id in lbs
    ensures LbsSound(env, lbs - {id}, if env.lbIP.None? then lbIPs - {lbs[id].ip} else lbIPs)
    ensures env.lbIP.None? ==> lbs[id].ip !in env.theirs.lbIPs
  {
    var fewer, after := lbs - {id}, if env.lbIP.None? then lbIPs - {lbs[id].ip} else lbIPs;
    forall q | q in after && q !in env.theirs.lbIPs ensures UsedByLb(fewer, q) {
      assert UsedByLb(lbs, q);
      var i :| i in lbs && lbs[i].ip == q;
      assert i in fewer && fewer[i].ip == q;
    }
    hide UsedByLb;
  }

  lemma AddingAGatewayIP(env: Env, st: State, id: string, zone: string, address: string)
    requires Sound(env, st) && id !in st.gatewayIPs && OwnsGateway(env) && env.gatewayIP.None?
    requires forall i | OwnGatewayIP(env, st.gatewayIPs, i) :: st.gatewayIPs[i].zone != zone
    ensures Sound(env, st.(gatewayIPs := st.gatewayIPs[id := Ip(zone, address)]))
  {
    hide LbsSound, NetworksSound, OwnsGateway;
  }

  lemma DroppingAGatewayIP(env: Env, st: State, id: string)
    requires Sound(env, st) && id !in env.theirs.gatewayIPs && forall g | OwnGateway(env, st.gateways, g) ::
              st.gateways[g].ip != id
    ensures Sound(env, st.(gatewayIPs := st.gatewayIPs - {id}))
  {
    hide LbsSound, NetworksSound, OwnsGateway;
    var gatewayIPs := st.gatewayIPs - {id};
    assert forall i | OwnGatewayIP(env, gatewayIPs, i) :: OwnGatewayIP(env, st.gatewayIPs, i);
  }

  lemma AddingAGateway(env: Env, st: State, id: string, zone: string, ip: string)
    requires Sound(env, st) && id !in st.gateways && OwnsGateway(env)
              && GatewayIPSound(env, Gateway(zone, ip), st.gatewayIPs)
    requires forall g | OwnGateway(env, st.gateways, g) :: st.gateways[g].zone != zone
    ensures Sound(env, st.(gateways := st.gateways[id := Gateway(zone, ip)]))
  {
    hide LbsSound, NetworksSound, OwnsGateway, GatewayIPSound;
  }

  lemma DroppingAGateway(env: Env, st: State, id: string)
    requires Sound(env, st) && id !in env.theirs.gateways
    ensures Sound(env, WithoutGateway(st, id))
  {
    hide LbsSound, NetworksSound, OwnsGateway, GatewayIPSound;
  }

  lemma AddingANetwork(env: Env, st: State, id: string, network: Network)
    requires Sound(env, st) && id !in st.networks && env.managedNetwork && forall n :: !OwnNetwork(env, st.networks, n)
    ensures Sound(env, st.(networks := st.networks[id := network]))
  {
    hide LbsSound, GatewaysSound;
    var networks := st.networks[id := network];
    assert forall n | OwnNetwork(env, networks, n) :: n == id || OwnNetwork(env, st.networks, n);
  }

  lemma DroppingANetwork(env: Env, st: State, id: string)
    requires Sound(env, st) && id !in env.theirs.networks && forall l | l in st.gatewayLinks || l in st.lbLinks ::
              l.1 != id
    ensures Sound(env, st.(networks := st.networks - {id}))
  {
    hide LbsSound, GatewaysSound;
    var networks := st.networks - {id};
    assert forall n | OwnNetwork(env, networks, n) :: OwnNetwork(env, st.networks, n);
  }

  lemma Linking(env: Env, st: State, gatewayLinks: set<(string, string)>, lbLinks: set<(string, string)>)
    requires Sound(env, st) && LinksSound(st.(gatewayLinks := gatewayLinks, lbLinks := lbLinks))
    ensures Sound(env, st.(gatewayLinks := gatewayLinks, lbLinks := lbLinks))
  {
    hide LbsSound, GatewaysSound, NetworksSound, LinksSound;
  }

  predicate FreeGatewayIP(gateways: map<string, Gateway>, ip: string) {
    forall g | g in gateways :: gateways[g].ip != ip
  }

  /** Some gateway or load balancer is on the network. */
  predicate IsLinked(st: State, network: string) {
    (exists l | l in st.gatewayLinks :: l.1 == network) || (exists l | l in st.lbLinks :: l.1 == network)
  }

  lemma NoLinks(st: State, network: string)
    requires !IsLinked(st, network)
    ensures forall l | l in st.gatewayLinks || l in st.lbLinks :: l.1 != network
  {
  }

  // ---- What a pass may change ----

  predicate Sub<V(==)>(a: map<string, V>, b: map<string, V>) {
    forall k | k in a :: k in b && b[k] == a[k]
  }

  /** Nothing went away, and what came is in the zones of the pass. */
  predicate Grew(o: State, p: State, lbZone: string, gatewayZone: string) {
    && Sub(o.lbs, p.lbs) && Sub(o.lbIPs, p.lbIPs) && Sub(o.gateways, p.gateways) && Sub(o.gatewayIPs, p.gatewayIPs)
        && Sub(o.networks, p.networks)
    && o.gatewayLinks <= p.gatewayLinks && o.lbLinks <= p.lbLinks
    && (forall i | i in p.lbs && i !in o.lbs :: p.lbs[i].zone == lbZone)
    && (forall g | g in p.gateways && g !in o.gateways :: p.gateways[g].zone == gatewayZone)
    && (forall i | i in p.gatewayIPs && i !in o.gatewayIPs :: p.gatewayIPs[i].zone == gatewayZone)
  }

  /** Nothing came, and outside the zones of the pass nothing went away. */
  predicate Shrank(o: State, p: State, lbZone: string, gatewayZone: string) {
    && Sub(p.lbs, o.lbs) && Sub(p.lbIPs, o.lbIPs) && Sub(p.gateways, o.gateways) && Sub(p.gatewayIPs, o.gatewayIPs)
        && Sub(p.networks, o.networks)
    && p.gatewayLinks <= o.gatewayLinks && p.lbLinks <= o.lbLinks
    && (forall l | l in o.gatewayLinks && l.0 in p.gateways :: l in p.gatewayLinks)
    && (forall l | l in o.lbLinks && l.0 in p.lbs :: l in p.lbLinks)
    && (forall i | i in o.lbs && o.lbs[i].zone != lbZone :: i in p.lbs)
    && (forall g | g in o.gateways && o.gateways[g].zone != gatewayZone :: g in p.gateways)
    && (forall i | i in o.gatewayIPs && o.gatewayIPs[i].zone != gatewayZone :: i in p.gatewayIPs)
  }

  lemma GrewIsTransitive(o: State, p: State, q: State, lbZone: string, gatewayZone: string)
    requires Grew(o, p, lbZone, gatewayZone) && Grew(p, q, lbZone, gatewayZone)
    ensures Grew(o, q, lbZone, gatewayZone)
  {
  }

  lemma ShrankIsTransitive(o: State, p: State, q: State, lbZone: string, gatewayZone: string)
    requires Shrank(o, p, lbZone, gatewayZone) && Shrank(p, q, lbZone, gatewayZone)
    ensures Shrank(o, q, lbZone, gatewayZone)
  {
  }

  lemma ShrankByNothing(st: State, lbZone: string, gatewayZone: string)
    ensures Shrank(st, st, lbZone, gatewayZone)
  {
  }

  lemma DroppingAnLbShrinks(st: State, id: string, release: bool, gatewayZone: string)
    requires id in st.lbs
    ensures Shrank(st, WithoutLb(st, id, release), st.lbs[id].zone, gatewayZone)
  {
  }

  lemma DroppingAGatewayShrinks(st: State, id: string, lbZone: string)
    requires id in st.gateways
    ensures Shrank(st, WithoutGateway(st, id), lbZone, st.gateways[id].zone)
  {
  }

  lemma NetworkDropShrinks(st: State, id: string, lbZone: string, gatewayZone: string)
    ensures Shrank(st, st.(networks := st.networks - {id}), lbZone, gatewayZone)
  {
  }

  /** The cloud's API for one cluster. A request with an ID that is taken, or on
      something that is in use or missing, fails without effect. */
  class CloudApi {
    const env: Env
    var st: State
    // Requests that did not succeed, and answers that something is not ready yet
    // or still in use.
    ghost var failures: nat
    ghost var waits: nat

    ghost predicate Valid()
      reads this
    {
      Sound(env, st)
    }

    constructor (env: Env, st: State)
      requires Sound(env, st)
      ensures Valid() && this.env == env && this.st == st
    {
      this.env := env;
      this.st := st;
    }

    /** A request that only reads. */
    method Ask() returns (ok: bool)
      modifies this`failures
      ensures failures == old(failures) + (if ok then 0 else 1)
    {
      var reply: Outcome := *;
      ok := reply == Success;
      failures := failures + (if ok then 0 else 1);
    }

    /** Whether a load balancer is ready by now. */
    method IsReady() returns (ready: bool)
      modifies this`waits
      ensures waits == old(waits) + (if ready then 0 else 1)
    {
      ready := *;
      waits := waits + (if ready then 0 else 1);
    }

    method FindLb(zone: string) returns (r: Result<Option<string>, Failure>)
      modifies this`failures
      ensures r.Err? ==> r.error == ApiFailure
      ensures r.Ok? ==>
                if r.value.Some? then r.value.value in st.lbs && st.lbs[r.value.value].zone == zone
                else forall i | i in st.lbs :: st.lbs[i].zone != zone
      ensures failures == old(failures) + (if r == Err(ApiFailure) then 1 else 0)
    {
      var reply: Outcome := *;
      if reply != Success {
        failures := failures + 1;
        return Err(ApiFailure);
      }
      if i :| i in st.lbs && st.lbs[i].zone == zone {
        return Ok(Some(i));
      }
      r := Ok(None);
    }

    /** FindLoadBalancerIP: a supplied IP with the address. */
    method FindLbIP(zone: string, address: string) returns (r: Result<string, Failure>)
      modifies this`failures
      ensures r.Ok? ==> r.value in env.theirs.lbIPs && r.value in st.lbIPs && st.lbIPs[r.value].address == address
      ensures r.Err? ==> r.error == ApiFailure || r.error == NotFound
      ensures failures == old(failures) + (if r == Err(ApiFailure) then 1 else 0)
      ensures r == Err(NotFound) ==>
                forall i | i in st.lbIPs && i in env.theirs.lbIPs :: st.lbIPs[i] != Ip(zone, address)
    {
      var reply: Outcome := *;
      if reply != Success {
        failures := failures + 1;
        return Err(ApiFailure);
      }
      if i :| i in st.lbIPs && i in env.theirs.lbIPs && st.lbIPs[i] == Ip(zone, address) {
        return Ok(i);
      }
      r := Err(NotFound);
    }

    method CreateLb(zone: string, ip: Option<string>, ghost gatewayZone: string) returns (r: Result<string, Failure>)
      requires Valid() && (forall i | i in st.lbs :: st.lbs[i].zone != zone)
      requires ip.Some? <==> env.lbIP.Some?
      requires ip.Some? ==>
                ip.value in env.theirs.lbIPs && ip.value in st.lbIPs && st.lbIPs[ip.value].address == env.lbIP.value
      modifies this`st, this`failures
      ensures Valid() && Grew(old(st), st, zone, gatewayZone)
      ensures r.Ok? ==> r.value in st.lbs && st.lbs[r.value].zone == zone
      ensures r.Err? ==> r.error == ApiFailure
      ensures failures == old(failures) + (if r == Err(ApiFailure) then 1 else 0)
    {
      hide Sound;
      var outcome: Outcome, id: string, automatic: string, address: string :| true;
      var ipID := if ip.Some? then ip.value else automatic;
      if outcome == NoEffect || id in st.lbs || (ip.None? && ipID in st.lbIPs)
          || (exists i | i in st.lbs :: st.lbs[i].ip == ipID) {
        failures := failures + 1;
        return Err(ApiFailure);
      }
      AddingAnLb(env, st, id, zone, ipID, address);
      st := WithLb(if env.lbIP.Some? then st else WithLbIP(st, ipID, zone, address), id, zone, ipID);
      failures := failures + (if outcome == Success then 0 else 1);
      r := if outcome == Success then Ok(id) else Err(ApiFailure);
    }

    method DeleteLb(id: string, releaseIP: bool, ghost gatewayZone: string) returns (ok: bool)
      requires Valid() && id in st.lbs && (releaseIP <==> env.lbIP.None?)
      modifies this`st, this`failures
      ensures Valid() && Shrank(old(st), st, old(st).lbs[id].zone, gatewayZone) && st.networks == old(st).networks
      ensures ok ==> id !in st.lbs
      ensures failures == old(failures) + (if ok then 0 else 1)
    {
      var outcome: Outcome := *;
      DroppingAnLb(env, st, id);
      DroppingAnLbShrinks(st, id, releaseIP, gatewayZone);
      ShrankByNothing(st, st.lbs[id].zone, gatewayZone);
      hide Sound, Shrank;
      if outcome != NoEffect {
        st := WithoutLb(st, id, releaseIP);
      }
      failures := failures + (if outcome == Success then 0 else 1);
      ok := outcome == Success;
    }

    method LinkLb(lb: string, network: string, ghost gatewayZone: string, ghost lbZone: string) returns (ok: bool)
      requires Valid() && lb in st.lbs
      modifies this`st, this`failures
      ensures Valid() && Grew(old(st), st, lbZone, gatewayZone)
      ensures ok ==> (lb, network) in st.lbLinks
      ensures failures == old(failures) + (if ok then 0 else 1)
    {
      var outcome: Outcome := *;
      if outcome == NoEffect || network !in st.networks {
        failures := failures + 1;
        return false;
      }
      Linking(env, st, st.gatewayLinks, st.lbLinks + {(lb, network)});
      st := st.(lbLinks := st.lbLinks + {(lb, network)});
      failures := failures + (if outcome == Success then 0 else 1);
      ok := outcome == Success;
    }

    method FindGateway(zone: string) returns (r: Result<Option<string>, Failure>)
      modifies this`failures
      ensures r.Err? ==> r.error == ApiFailure
      ensures r.Ok? ==>
                if r.value.Some? then OwnGateway(env, st.gateways, r.value.value)
                && st.gateways[r.value.value].zone == zone
                        else forall g | OwnGateway(env, st.gateways, g) :: st.gateways[g].zone != zone
      ensures failures == old(failures) + (if r == Err(ApiFailure) then 1 else 0)
    {
      var reply: Outcome := *;
      if reply != Success {
        failures := failures + 1;
        return Err(ApiFailure);
      }
      if g :| g in st.gateways && OwnGateway(env, st.gateways, g) && st.gateways[g].zone == zone {
        return Ok(Some(g));
      }
      r := Ok(None);
    }

    /** FindGatewayIP: a supplied IP with the address that no gateway uses yet. */
    method FindGatewayIP(zone: string, address: string) returns (r: Result<string, Failure>)
      modifies this`failures
      ensures r.Ok? ==> forall g | g in st.gateways :: st.gateways[g].ip != r.value
      ensures r.Ok? ==>
                r.value in env.theirs.gatewayIPs && r.value in st.gatewayIPs
                && st.gatewayIPs[r.value].address == address
      ensures r.Err? ==> r.error == ApiFailure || r.error == NotFound
      ensures failures == old(failures) + (if r == Err(ApiFailure) then 1 else 0)
      ensures r == Err(NotFound) ==>
                forall i | i in st.gatewayIPs && i in env.theirs.gatewayIPs && st.gatewayIPs[i] == Ip(zone, address) ::
                  !FreeGatewayIP(st.gateways, i)
    {
      var reply: Outcome := *;
      if reply != Success {
        failures := failures + 1;
        return Err(ApiFailure);
      }
      if i :|
          i in st.gatewayIPs && i in env.theirs.gatewayIPs && st.gatewayIPs[i] == Ip(zone, address)
          && FreeGatewayIP(st.gateways, i) {
        return Ok(i);
      }
      r := Err(NotFound);
    }

    /** FindGatewayIPByTags: none, the one, or an error for several; several never happens. */
    method FindTaggedIP(zone: string) returns (r: Result<Option<string>, Failure>)
      requires Valid()
      modifies this`failures
      ensures r.Err? ==> r.error == ApiFailure
      ensures r.Ok? ==>
                if r.value.Some? then OwnGatewayIP(env, st.gatewayIPs, r.value.value)
                && st.gatewayIPs[r.value.value].zone == zone
                        else forall i | OwnGatewayIP(env, st.gatewayIPs, i) :: st.gatewayIPs[i].zone != zone
      ensures failures == old(failures) + (if r == Err(ApiFailure) then 1 else 0)
    {
      var reply: Outcome := *;
      if reply != Success {
        failures := failures + 1;
        return Err(ApiFailure);
      }
      var found := set i | i in st.gatewayIPs && OwnGatewayIP(env, st.gatewayIPs, i) && st.gatewayIPs[i].zone == zone;
      if |found| == 0 {
        assert forall i | OwnGatewayIP(env, st.gatewayIPs, i) && st.gatewayIPs[i].zone == zone :: i in found;
        return Ok(None);
      }
      var i :| i in found;
      assert found == {i};
      if |found| > 1 {
        return Err(TooManyItems);
      }
      r := Ok(Some(i));
    }

    method CreateGatewayIP(zone: string, ghost lbZone: string) returns (r: Result<string, Failure>)
      requires Valid() && OwnsGateway(env) && env.gatewayIP.None?
      requires forall i | OwnGatewayIP(env, st.gatewayIPs, i) :: st.gatewayIPs[i].zone != zone
      modifies this`st, this`failures
      ensures Valid() && Grew(old(st), st, lbZone, zone)
      ensures old(st).gateways == st.gateways
      ensures r.Ok? ==> OwnGatewayIP(env, st.gatewayIPs, r.value) && st.gatewayIPs[r.value].zone == zone
      ensures r.Err? ==> r.error == ApiFailure
      ensures failures == old(failures) + (if r == Err(ApiFailure) then 1 else 0)
    {
      var outcome: Outcome, id: string, address: string :| true;
      if outcome == NoEffect || id in st.gatewayIPs {
        failures := failures + 1;
        return Err(ApiFailure);
      }
      AddingAGatewayIP(env, st, id, zone, address);
      assert id !in env.theirs.gatewayIPs;
      hide Sound;
      st := st.(gatewayIPs := st.gatewayIPs[id := Ip(zone, address)]);
      failures := failures + (if outcome == Success then 0 else 1);
      r := if outcome == Success then Ok(id) else Err(ApiFailure);
    }

    method CreateGateway(zone: string, ip: string, ghost lbZone: string) returns (r: Result<string, Failure>)
      requires Valid() && OwnsGateway(env) && GatewayIPSound(env, Gateway(zone, ip), st.gatewayIPs)
      requires forall g | OwnGateway(env, st.gateways, g) :: st.gateways[g].zone != zone
      modifies this`st, this`failures
      ensures Valid() && Grew(old(st), st, lbZone, zone)
      ensures r.Ok? ==> OwnGateway(env, st.gateways, r.value) && st.gateways[r.value].zone == zone
      ensures r.Err? ==> r.error == ApiFailure
      ensures failures == old(failures) + (if r == Err(ApiFailure) then 1 else 0)
    {
      var outcome: Outcome, id: string :| true;
      if outcome == NoEffect || id in st.gateways || !FreeGatewayIP(st.gateways, ip) {
        failures := failures + 1;
        return Err(ApiFailure);
      }
      AddingAGateway(env, st, id, zone, ip);
      assert id !in env.theirs.gateways;
      hide Sound;
      st := st.(gateways := st.gateways[id := Gateway(zone, ip)]);
      failures := failures + (if outcome == Success then 0 else 1);
      r := if outcome == Success then Ok(id) else Err(ApiFailure);
    }

    method LinkGateway(g: string, network: string, ghost lbZone: string, ghost gatewayZone: string) returns (ok: bool)
      requires Valid()
      modifies this`st, this`failures
      ensures Valid() && Grew(old(st), st, lbZone, gatewayZone)
      ensures ok ==> (g, network) in st.gatewayLinks
      ensures failures == old(failures) + (if ok then 0 else 1)
    {
      var outcome: Outcome := *;
      if outcome == NoEffect || network !in st.networks || g !in st.gateways {
        failures := failures + 1;
        return false;
      }
      Linking(env, st, st.gatewayLinks + {(g, network)}, st.lbLinks);
      st := st.(gatewayLinks := st.gatewayLinks + {(g, network)});
      failures := failures + (if outcome == Success then 0 else 1);
      ok := outcome == Success;
    }

    method DeleteGateway(id: string, ghost lbZone: string) returns (ok: bool)
      requires Valid() && OwnGateway(env, st.gateways, id)
      modifies this`st, this`failures
      ensures Valid() && Shrank(old(st), st, lbZone, old(st).gateways[id].zone) && st.networks == old(st).networks
      ensures ok ==> st == WithoutGateway(old(st), id)
      ensures failures == old(failures) + (if ok then 0 else 1)
    {
      var outcome: Outcome := *;
      DroppingAGateway(env, st, id);
      DroppingAGatewayShrinks(st, id, lbZone);
      ShrankByNothing(st, lbZone, st.gateways[id].zone);
      hide Sound, Shrank;
      if outcome != NoEffect {
        st := WithoutGateway(st, id);
      }
      failures := failures + (if outcome == Success then 0 else 1);
      ok := outcome == Success;
    }

    method DeleteGatewayIP(id: string, ghost lbZone: string) returns (ok: bool)
      requires Valid() && OwnGatewayIP(env, st.gatewayIPs, id)
                && (forall g | OwnGateway(env, st.gateways, g) :: st.gateways[g].ip != id)
      modifies this`st, this`failures
      ensures Valid() && Shrank(old(st), st, lbZone, old(st).gatewayIPs[id].zone) && st.networks == old(st).networks
      ensures ok ==> id !in st.gatewayIPs && st.gateways == old(st).gateways
      ensures failures == old(failures) + (if ok then 0 else 1)
    {
      var outcome: Outcome := *;
      DroppingAGatewayIP(env, st, id);
      hide Sound;
      if outcome != NoEffect {
        st := st.(gatewayIPs := st.gatewayIPs - {id});
      }
      failures := failures + (if outcome == Success then 0 else 1);
      ok := outcome == Success;
    }

    method FindNetwork() returns (r: Result<Option<string>, Failure>)
      modifies this`failures
      ensures r.Err? ==> r.error == ApiFailure
      ensures r.Ok? ==> if r.value.Some? then OwnNetwork(env, st.networks, r.value.value)
                else forall n :: !OwnNetwork(env, st.networks, n)
      ensures failures == old(failures) + (if r == Err(ApiFailure) then 1 else 0)
    {
      var reply: Outcome := *;
      if reply != Success {
        failures := failures + 1;
        return Err(ApiFailure);
      }
      if n :| n in st.networks && OwnNetwork(env, st.networks, n) {
        return Ok(Some(n));
      }
      r := Ok(None);
    }

    method CreateNetwork(ghost lbZone: string, ghost gatewayZone: string) returns (r: Result<string, Failure>)
      requires Valid() && env.managedNetwork && forall n :: !OwnNetwork(env, st.networks, n)
      modifies this`st, this`failures
      ensures Valid() && Grew(old(st), st, lbZone, gatewayZone)
      ensures r.Ok? ==> OwnNetwork(env, st.networks, r.value)
      ensures r.Err? ==> r.error == ApiFailure
      ensures failures == old(failures) + (if r == Err(ApiFailure) then 1 else 0)
    {
      var outcome: Outcome, id: string, dhcp: bool :| true;
      if outcome == NoEffect || id in st.networks {
        failures := failures + 1;
        return Err(ApiFailure);
      }
      AddingANetwork(env, st, id, Network(dhcp));
      assert id !in env.theirs.networks;
      hide Sound;
      st := st.(networks := st.networks[id := Network(dhcp)]);
      failures := failures + (if outcome == Success then 0 else 1);
      r := if outcome == Success then Ok(id) else Err(ApiFailure);
    }

    /** A network with a gateway, a load balancer or anything else on it cannot be deleted. */
    method DeleteNetwork(id: string, ghost lbZone: string, ghost gatewayZone: string) returns (r: Result<(), Failure>)
      requires Valid() && OwnNetwork(env, st.networks, id)
      modifies this`st, this`failures, this`waits
      ensures Valid() && Shrank(old(st), st, lbZone, gatewayZone)
      ensures r.Ok? ==> id !in st.networks
      ensures r.Ok? ==> forall l | l in old(st).gatewayLinks || l in old(st).lbLinks :: l.1 != id
      ensures failures == old(failures) + (if r == Err(ApiFailure) then 1 else 0)
      ensures r.Err? ==> r.error == ApiFailure || r.error == PreconditionFailed
      ensures r == Err(PreconditionFailed) ==>
                st == old(st) && (waits > old(waits) || IsLinked(st, id))
      ensures waits >= old(waits)
    {
      var outcome: Outcome, inUse: bool :| true;
      ShrankByNothing(st, lbZone, gatewayZone);
      if inUse || IsLinked(st, id) {
        waits := waits + (if inUse then 1 else 0);
        return Err(PreconditionFailed);
      }
      if outcome == NoEffect {
        failures := failures + 1;
        return Err(ApiFailure);
      }
      NoLinks(st, id);
      DroppingANetwork(env, st, id);
      NetworkDropShrinks(st, id, lbZone, gatewayZone);
      hide Sound, Shrank, IsLinked;
      st := st.(networks := st.networks - {id});
      failures := failures + (if outcome == Success then 0 else 1);
      r := if outcome == Success then Ok(()) else Err(ApiFailure);
    }
  }
}
