// The declared cluster and machine, and the facts and resource keys that the
// controllers derive from them.
module Scope {
  import opened Wrappers
  import opened SecurityRules

  datatype PrivateNetworkSpec = PrivateNetworkSpec(enabled: bool, id: Option<string>, subnet: Option<string>)

  datatype PublicGatewaySpec =
    PublicGatewaySpec(enabled: bool, id: Option<string>, offer: Option<string>, ip: Option<string>,
                      zone: Option<string>)

  datatype NetworkSpec =
    NetworkSpec(privateNetwork: Option<PrivateNetworkSpec>, publicGateway: Option<PublicGatewaySpec>,
                securityGroups: seq<GroupSpec>)

  datatype LoadBalancerSpec =
    LoadBalancerSpec(zone: Option<string>, offer: Option<string>, ip: Option<string>, allowedRanges: seq<string>)

  datatype ClusterSpec =
    ClusterSpec(region: string, secretName: string, failureDomains: seq<string>, network: Option<NetworkSpec>,
                loadBalancer: Option<LoadBalancerSpec>)

  datatype MachineSpec =
    MachineSpec(providerID: Option<string>, image: string, offer: string, rootVolumeSize: Option<int>,
                rootVolumeType: Option<string>, publicIP: Option<bool>, securityGroupName: Option<string>)

  /** The SDK's table of regions and their zones, in the SDK's order. */
  type Geography = geo: map<string, seq<string>> | ZonesAreDistinct(geo) witness map[]

  predicate ZonesAreDistinct(geo: map<string, seq<string>>) {
    && (forall r | r in geo :: Distinct(geo[r]))
    && (forall r, q | r in geo && q in geo && r != q :: forall z | z in geo[r] :: z !in geo[q])
  }

  predicate Distinct<T(==)>(s: seq<T>) {
    forall i, j | 0 <= i < j < |s| :: s[i] != s[j]
  }

  /** A zone text that parses, and whose region is the given one. */
  predicate ZoneInRegion(geo: Geography, zone: string, region: string) {
    region in geo && zone in geo[region]
  }

  // ---- Derived facts ----

  function PrivateNetworkOf(spec: ClusterSpec): Option<PrivateNetworkSpec> {
    if spec.network.None? then None else spec.network.value.privateNetwork
  }

  function PublicGatewayOf(spec: ClusterSpec): Option<PublicGatewaySpec> {
    if spec.network.None? then None else spec.network.value.publicGateway
  }

  function SecurityGroupsOf(spec: ClusterSpec): seq<GroupSpec> {
    if spec.network.None? then [] else spec.network.value.securityGroups
  }

  function LoadBalancerZoneOf(spec: ClusterSpec): Option<string> {
    if spec.loadBalancer.None? then None else spec.loadBalancer.value.zone
  }

  function LoadBalancerIPOf(spec: ClusterSpec): Option<string> {
    if spec.loadBalancer.None? then None else spec.loadBalancer.value.ip
  }

  function AllowedRangesOf(spec: ClusterSpec): seq<string> {
    if spec.loadBalancer.None? then [] else spec.loadBalancer.value.allowedRanges
  }

  predicate HasPrivateNetwork(spec: ClusterSpec) {
    PrivateNetworkOf(spec).Some? && PrivateNetworkOf(spec).value.enabled
  }

  predicate ShouldManagePrivateNetwork(spec: ClusterSpec) {
    HasPrivateNetwork(spec) && PrivateNetworkOf(spec).value.id.None?
  }

  predicate HasPublicGateway(spec: ClusterSpec) {
    PublicGatewayOf(spec).Some? && PublicGatewayOf(spec).value.enabled
  }

  function DefaultZone(spec: ClusterSpec): string {
    spec.region + "-1"
  }

  /** The zone used when none is written: the first failure domain, else the default. */
  function FirstChoice(spec: ClusterSpec): string {
    if |spec.failureDomains| > 0 then spec.failureDomains[0] else DefaultZone(spec)
  }

  function LoadBalancerZone(spec: ClusterSpec): string {
    if LoadBalancerZoneOf(spec).Some? then LoadBalancerZoneOf(spec).value else FirstChoice(spec)
  }

  function PublicGatewayZone(spec: ClusterSpec): string {
    var gw := PublicGatewayOf(spec);
    if gw.Some? && gw.value.zone.Some? then gw.value.zone.value else FirstChoice(spec)
  }

  predicate NeedsPublicIP(spec: MachineSpec) {
    spec.publicIP == Some(true)
  }

  // ---- Zones ----

  function ZonesOf(geo: Geography, region: string): seq<string> {
    if region in geo then geo[region] else []
  }

  function Compatible(all: seq<string>, compatible: seq<string>): seq<string> {
    if all == [] then []
    else
      var last := all[|all| - 1];
      Compatible(all[..|all| - 1], compatible) + (if last in compatible || compatible == [] then [last] else [])
  }

  /** The zones a cluster of a region works in, for an API with these zones. */
  function ZonesFor(geo: Geography, region: string, compatible: seq<string>): seq<string> {
    var zones := Compatible(ZonesOf(geo, region), compatible);
    if zones == [] then [region + "-1"] else zones
  }

  /** The first list goes through the second one from left to right. */
  predicate InOrder(some: seq<string>, all: seq<string>) {
    forall i, j, p, q | 0 <= i < j < |some| && 0 <= p < |all| && 0 <= q < |all| && all[p] == some[i]
        && all[q] == some[j] ::
      p < q
  }

  lemma FewAreInOrder(some: seq<string>, all: seq<string>)
    requires |some| <= 1
    ensures InOrder(some, all)
  {
  }

  lemma InOrderByOneMore(some: seq<string>, all: seq<string>, n: nat)
    requires Distinct(all) && n < |all| && InOrder(some, all) && forall z | z in some :: z in all[..n]
    ensures InOrder(some + [all[n]], all)
  {
    var more := some + [all[n]];
    forall i, j, p, q | 0 <= i < j < |more| && 0 <= p < |all| && 0 <= q < |all| && all[p] == more[i]
        && all[q] == more[j]
      ensures p < q
    {
      if j == |some| {
        assert more[i] == some[i] && some[i] in all[..n];
        var t :| 0 <= t < n && all[t] == some[i];
        assert p == t && q == n;
      }
    }
  }

  /** The zones of the region that are compatible, in the region's order; all
      of them when nothing is said; never none. */
  method Zones(geo: Geography, spec: ClusterSpec, compatible: seq<string>) returns (zones: seq<string>)
    ensures zones == ZonesFor(geo, spec.region, compatible)
    ensures |zones| > 0 && Distinct(zones) && (spec.region in geo ==> InOrder(zones, geo[spec.region]))
    ensures (forall z :: z in zones <==>
              spec.region in geo && z in geo[spec.region] && (z in compatible || compatible == []))
            || (zones == [spec.region + "-1"]
                && forall z | spec.region in geo && z in geo[spec.region] :: z !in compatible && compatible != [])
  {
    hide InOrder, Picked;
    zones := [];
    var all := ZonesOf(geo, spec.region);
    NothingPicked(all, compatible);
    for i := 0 to |all|
      invariant Picked(zones, all, i, compatible)
    {
      PickedNext(zones, all, i, compatible);
      if all[i] in compatible || |compatible| == 0 {
        zones := zones + [all[i]];
      }
    }
    AllPicked(zones, all, compatible);
    if |zones| == 0 {
      zones := [DefaultZone(spec)];
      FewAreInOrder(zones, all);
    }
  }

  /** The compatible ones among the first n zones. */
  ghost predicate Picked(zones: seq<string>, all: seq<string>, n: nat, compatible: seq<string>) {
    && n <= |all| && zones == Compatible(all[..n], compatible) && Distinct(zones) && InOrder(zones, all)
    && forall z :: z in zones <==> z in all[..n] && (z in compatible || compatible == [])
  }

  lemma NothingPicked(all: seq<string>, compatible: seq<string>)
    ensures Picked([], all, 0, compatible)
  {
  }

  lemma PickedNext(zones: seq<string>, all: seq<string>, n: nat, compatible: seq<string>)
    requires Distinct(all) && n < |all| && Picked(zones, all, n, compatible)
    ensures Picked(if all[n] in compatible || compatible == [] then zones + [all[n]] else zones, all, n + 1, compatible)
  {
    hide InOrder;
    InOrderByOneMore(zones, all, n);
    assert all[n] !in all[..n];
    assert all[..n + 1] == all[..n] + [all[n]] && all[..n + 1][..n] == all[..n];
  }

  lemma AllPicked(zones: seq<string>, all: seq<string>, compatible: seq<string>)
    requires Picked(zones, all, |all|, compatible)
    ensures zones == Compatible(all, compatible) && Distinct(zones) && InOrder(zones, all)
    ensures forall z :: z in zones <==> z in all && (z in compatible || compatible == [])
    ensures zones == [] ==> forall z | z in all :: z !in compatible && compatible != []
  {
    hide InOrder;
    assert all[..|all|] == all;
    if zones == [] {
      forall z | z in all ensures z !in compatible && compatible != [] {
        assert z !in zones;
      }
    }
  }

  // ---- Names and tags ----

  function ClusterName(cluster: string): string {
    "caps-" + cluster
  }

  function ClusterTag(cluster: string): string {
    "caps-cluster=" + ClusterName(cluster)
  }

  /** Listing by the tag of one cluster never shows what another one made. */
  lemma ClusterTagsAreTheirOwn(c: string, d: string)
    ensures ClusterTag(c) == ClusterTag(d) ==> c == d
  {
    var k := |"caps-cluster=" + "caps-"|;
    assert ClusterTag(c)[k..] == c && ClusterTag(d)[k..] == d;
  }

  function SecurityGroupName(cluster: string, group: string): string {
    ClusterName(cluster) + "-" + group
  }

  function MachineName(machine: string): string {
    "caps-" + machine
  }

  /** What the node of a server is known by. */
  function ProviderID(zone: string, server: string): string {
    "scaleway://instance/" + zone + "/" + server
  }

  lemma ProviderIDsAreTheirOwn(zone: string, s: string, t: string)
    ensures ProviderID(zone, s) == ProviderID(zone, t) ==> s == t
  {
    var k := |"scaleway://instance/" + zone + "/"|;
    assert ProviderID(zone, s)[k..] == s && ProviderID(zone, t)[k..] == t;
  }

  const ALLOWED_RANGES := "allowed-ranges"
  const PUBLIC_GATEWAY := "public-gateway"
  const DENY_ALL := "deny-all"

  predicate IsFixedAclName(name: string) {
    name == ALLOWED_RANGES || name == PUBLIC_GATEWAY || name == DENY_ALL
  }

  /** A machine's ACL can never take a name the cluster pass works on, and two
      machines never share one. */
  lemma MachineNamesAreTheirOwn(m: string, n: string)
    ensures MachineName(m) == "caps-" + m && !IsFixedAclName(MachineName(m))
    ensures MachineName(m) == MachineName(n) ==> m == n
  {
    assert MachineName(m)[5..] == m && MachineName(n)[5..] == n;
    assert MachineName(m)[0] == 'c';
  }

  lemma SecurityGroupNamesAreInjective(cluster: string, g: string, h: string)
    ensures SecurityGroupName(cluster, g) == SecurityGroupName(cluster, h) ==> g == h
  {
    var k := |ClusterName(cluster)| + 1;
    assert SecurityGroupName(cluster, g)[k..] == g && SecurityGroupName(cluster, h)[k..] == h;
  }

  /** The groups of two clusters share a name exactly when one cluster's name goes
      on after the other's and a dash, and the group's name with it. */
  lemma GroupNamesClashExactlyWhen(c: string, g: string, d: string, h: string)
    requires |c| < |d|
    ensures SecurityGroupName(c, g) == SecurityGroupName(d, h) <==> c + "-" <= d && g == d[|c| + 1..] + "-" + h
  {
    var one, other := SecurityGroupName(c, g), SecurityGroupName(d, h);
    var k := |ClusterName(c)| + 1;
    assert one[..k] == "caps-" + (c + "-") && one[k..] == g && one == one[..k] + one[k..];
    assert other[..k] == "caps-" + d[..|c| + 1] && other[k..] == d[|c| + 1..] + "-" + h
        && other == other[..k] + other[k..];
    assert one[..k] == other[..k] ==> c + "-" == d[..|c| + 1] by {
      assert one[..k][5..] == c + "-" && other[..k][5..] == d[..|c| + 1];
    }
  }

  lemma TwoClustersShareAGroup()
    ensures SecurityGroupName("a", "b-c") == SecurityGroupName("a-b", "c")
  {
    GroupNamesClashExactlyWhen("a", "b-c", "a-b", "c");
    assert "a" + "-" <= "a-b" && "a-b"[2..] + "-" + "c" == "b-c";
  }
}
