// Admission: what the validating webhooks accept, and what an accepted chain
// of updates keeps.
module Webhook {
  import opened Wrappers
  import opened Ports
  import opened Cidr
  import opened SecurityRules
  import opened Scope

  /** Panic is the nil dereference the code runs into. */
  datatype Verdict = Admit | Reject | Panic

  /** The fields an update can be refused for. */
  datatype Field =
    | RegionField | SecretNameField | PrivateNetworkField | PublicGatewayField | LoadBalancerZoneField
    | LoadBalancerIPField
    | ProviderIDField | ImageField | TypeField | RootVolumeSizeField | RootVolumeTypeField | PublicIPField
    | SecurityGroupNameField

  // ---- Well-formed specs ----

  // They are stated on the texts of the declaration, not through the conversions.

  ghost predicate RuleIsWellFormed(rule: SpecRule) {
    && WellWritten(rule)
    && (rule.ports.Some? ==> rule.protocol == Some("TCP") || rule.protocol == Some("UDP"))
  }

  ghost predicate PolicyIsWellFormed(policy: Option<SpecPolicy>) {
    policy.Some? ==>
      && (policy.value.defaultAction == None || policy.value.defaultAction == Some("Accept")
          || policy.value.defaultAction == Some("Drop"))
      && forall i | 0 <= i < |policy.value.rules| :: RuleIsWellFormed(policy.value.rules[i])
  }

  ghost predicate GroupIsWellFormed(group: GroupSpec) {
    PolicyIsWellFormed(group.inbound) && PolicyIsWellFormed(group.outbound)
  }

  ghost predicate GroupsAreWellFormed(groups: seq<GroupSpec>) {
    && (forall i, j | 0 <= i < j < |groups| :: groups[i].name != groups[j].name)
    && (forall i | 0 <= i < |groups| :: GroupIsWellFormed(groups[i]))
  }

  /** An existing gateway is named by ID and zone alone. */
  predicate GatewayIsWellFormed(gw: PublicGatewaySpec, region: string, geo: Geography) {
    && (gw.zone.Some? ==> region in geo && gw.zone.value in geo[region])
    && (gw.id.Some? ==> gw.offer.None? && gw.ip.None? && gw.zone.Some?)
  }

  /** The dereference of the missing zone is reached. */
  predicate GatewayPanics(gw: PublicGatewaySpec) {
    gw.id.Some? && gw.offer.None? && gw.ip.None? && gw.zone.None?
  }

  /** The subnet rule is only looked at when a gateway is declared. */
  predicate SubnetIsWellFormed(pn: Option<PrivateNetworkSpec>) {
    pn.Some? ==> pn.value.subnet.None? || pn.value.id.None?
  }

  ghost predicate NetworkIsWellFormed(spec: ClusterSpec, geo: Geography) {
    spec.network.Some? ==>
      var network := spec.network.value;
      && (network.publicGateway.Some? ==>
            && GatewayIsWellFormed(network.publicGateway.value, spec.region, geo)
            && SubnetIsWellFormed(network.privateNetwork))
      && GroupsAreWellFormed(network.securityGroups)
  }

  /** The checks of the validator amount to well-formed texts. */
  lemma WellFormedExactlyWhenConvertible(rule: SpecRule)
    ensures RuleIsWellFormed(rule) <==>
              && ToInstanceAction(rule.action).Ok? && ToInstanceProtocol(rule.protocol).Ok? && ToRange(rule.ports).Ok?
              && (rule.ipRange.Some? ==> ParseCIDR(rule.ipRange.value).Some?)
              && (rule.ports.Some? ==> ToInstanceProtocol(rule.protocol).value in {TCP, UDP})
  {
    hide ToRange, ParseCIDR, PortsAreWritten, RangeIsWritten;
    WrittenTextsConvert(rule);
    WrittenProtocols(rule.protocol);
  }

  method ValidateSecurityGroupPolicy(policy: Option<SpecPolicy>) returns (ok: bool)
    ensures ok <==> PolicyIsWellFormed(policy)
  {
    hide ToRange, ParseCIDR, RuleIsWellFormed;
    if policy.None? {
      return true;
    }
    if ToInstancePolicy(policy.value.defaultAction).Err? {
      return false;
    }
    var rules := policy.value.rules;
    for i := 0 to |rules|
      invariant forall j | 0 <= j < i :: RuleIsWellFormed(rules[j])
    {
      var rule := rules[i];
      WellFormedExactlyWhenConvertible(rule);
      if ToInstanceAction(rule.action).Err? {
        return false;
      }
      var protocol := ToInstanceProtocol(rule.protocol);
      if protocol.Err? {
        return false;
      }
      if ToRange(rule.ports).Err? {
        return false;
      }
      if (protocol.value == ANY || protocol.value == ICMP) && rule.ports.Some? {
        return false;
      }
      if rule.ipRange.Some? && ParseCIDR(rule.ipRange.value).None? {
        return false;
      }
    }
    ok := true;
  }

  /** validateNetworkSpec admits exactly the well-formed networks, and crashes
      exactly on an existing gateway without a zone. */
  method ValidateNetworkSpec(spec: ClusterSpec, geo: Geography) returns (v: Verdict)
    ensures v == Admit <==> NetworkIsWellFormed(spec, geo)
    ensures v == Panic <==> PublicGatewayOf(spec).Some? && GatewayPanics(PublicGatewayOf(spec).value)
  {
    hide PolicyIsWellFormed;
    if spec.network.None? {
      return Admit;
    }
    var network := spec.network.value;
    if network.publicGateway.Some? {
      var gw := network.publicGateway.value;
      if gw.zone.Some? && !ZoneInRegion(geo, gw.zone.value, spec.region) {
        return Reject;
      }
      if gw.id.Some? {
        if gw.offer.Some? {
          return Reject;
        }
        if gw.ip.Some? {
          return Reject;
        }
        if gw.zone.None? {
          return Panic;
        }
      }
      if network.privateNetwork.Some? {
        if network.privateNetwork.value.subnet.Some? && network.privateNetwork.value.id.Some? {
          return Reject;
        }
      }
    }
    var groups := network.securityGroups;
    var uniqueNames: set<string> := {};
    for i := 0 to |groups|
      invariant uniqueNames == set j | 0 <= j < i :: groups[j].name
      invariant GroupsAreWellFormed(groups[..i])
    {
      if groups[i].name in uniqueNames {
        var j :| 0 <= j < i && groups[j].name == groups[i].name;
        return Reject;
      }
      uniqueNames := uniqueNames + {groups[i].name};
      var inbound := ValidateSecurityGroupPolicy(groups[i].inbound);
      if !inbound {
        assert !GroupIsWellFormed(groups[i]);
        return Reject;
      }
      var outbound := ValidateSecurityGroupPolicy(groups[i].outbound);
      if !outbound {
        assert !GroupIsWellFormed(groups[i]);
        return Reject;
      }
      assert groups[..i + 1] == groups[..i] + [groups[i]];
    }
    assert groups[..|groups|] == groups;
    v := Admit;
  }

  predicate FailureDomainsAreWellFormed(spec: ClusterSpec, geo: Geography) {
    && Distinct(spec.failureDomains)
    && forall z | z in spec.failureDomains :: spec.region in geo && z in geo[spec.region]
  }

  method ValidateFailureDomains(spec: ClusterSpec, geo: Geography) returns (ok: bool)
    ensures ok <==> FailureDomainsAreWellFormed(spec, geo)
  {
    var dupes: set<string> := {};
    var domains := spec.failureDomains;
    for i := 0 to |domains|
      invariant dupes == set j | 0 <= j < i :: domains[j]
      invariant Distinct(domains[..i])
      invariant forall z | z in domains[..i] :: spec.region in geo && z in geo[spec.region]
    {
      if !ZoneInRegion(geo, domains[i], spec.region) {
        assert spec.failureDomains[i] in spec.failureDomains;
        return false;
      }
      if domains[i] in dupes {
        var j :| 0 <= j < i && domains[j] == domains[i];
        return false;
      }
      dupes := dupes + {domains[i]};
      assert domains[..i + 1] == domains[..i] + [domains[i]];
    }
    assert domains[..|domains|] == domains;
    ok := true;
  }

  // ---- What admission gives the reconcilers ----

  /** An admitted rule compiles, and comparing it with any stored rule gives an answer. */
  lemma WellFormedRuleNeverFails(rule: SpecRule)
    requires RuleIsWellFormed(rule)
    ensures RuleNeverFails(rule)
  {
    hide ToRange, ParseCIDR, PortsAreWritten, RangeIsWritten;
    WrittenTextsConvert(rule);
  }

  /** An admitted network makes every conversion of the security-group pass
      succeed, and its groups have pairwise distinct names in the cloud. */
  lemma AdmittedNetworkNeverFails(spec: ClusterSpec, geo: Geography, cluster: string)
    requires NetworkIsWellFormed(spec, geo)
    ensures var groups := SecurityGroupsOf(spec);
            && (forall i, j | 0 <= i < j < |groups| ::
                  SecurityGroupName(cluster, groups[i].name) != SecurityGroupName(cluster, groups[j].name))
            && (forall i | 0 <= i < |groups| ::
                ConversionsSucceed(groups[i].inbound) && ConversionsSucceed(groups[i].outbound))
  {
    var groups := SecurityGroupsOf(spec);
    forall i, j | 0 <= i < j < |groups|
      ensures SecurityGroupName(cluster, groups[i].name) != SecurityGroupName(cluster, groups[j].name)
    {
      SecurityGroupNamesAreInjective(cluster, groups[i].name, groups[j].name);
    }
    forall i | 0 <= i < |groups|
        ensures ConversionsSucceed(groups[i].inbound) && ConversionsSucceed(groups[i].outbound) {
      assert GroupIsWellFormed(groups[i]);
      WellFormedPolicyConverts(groups[i].inbound);
      WellFormedPolicyConverts(groups[i].outbound);
    }
  }

  lemma WellFormedPolicyConverts(policy: Option<SpecPolicy>)
    requires PolicyIsWellFormed(policy)
    ensures ConversionsSucceed(policy)
  {
    forall i | 0 <= i < |RulesOf(policy)| ensures RuleNeverFails(RulesOf(policy)[i]) {
      WellFormedRuleNeverFails(RulesOf(policy)[i]);
    }
  }

  // ---- Defaults of the cluster schema ----

  /** The schema gives a declared gateway and load balancer an offer. */
  function WithSchemaDefaults(spec: ClusterSpec): ClusterSpec {
    var network :=
      if spec.network.None? || spec.network.value.publicGateway.None?
          || spec.network.value.publicGateway.value.offer.Some? then spec.network
      else Some(spec.network.value.(publicGateway :=
          Some(spec.network.value.publicGateway.value.(offer := Some("VPC-GW-S")))));
    var lb :=
      if spec.loadBalancer.None? || spec.loadBalancer.value.offer.Some? then spec.loadBalancer
      else Some(spec.loadBalancer.value.(offer := Some("LB-S")));
    spec.(network := network, loadBalancer := lb)
  }

  /** After the schema defaults, an existing gateway can never be admitted: the
      default offer collides with the rule that an ID excludes an offer. The
      crash on a missing zone is then out of reach as well. */
  lemma DefaultedGatewayByIdIsNeverAdmitted(spec: ClusterSpec, geo: Geography)
    ensures var d := WithSchemaDefaults(spec);
            && (PublicGatewayOf(spec).Some? && PublicGatewayOf(spec).value.id.Some? ==> !NetworkIsWellFormed(d, geo))
            && (PublicGatewayOf(d).Some? ==> !GatewayPanics(PublicGatewayOf(d).value))
  {
  }

  /** A subnet for a network that exists already is a contradiction, and the check
      for it is inside the one of the gateway: it is admitted exactly without one. */
  lemma SubnetClashIsAdmittedExactlyWithoutAGateway(spec: ClusterSpec, geo: Geography)
    requires spec.network.Some? && !SubnetIsWellFormed(PrivateNetworkOf(spec))
    ensures NetworkIsWellFormed(spec, geo) <==>
              PublicGatewayOf(spec).None? && GroupsAreWellFormed(SecurityGroupsOf(spec))
  {
  }

  lemma ASubnetClashIsAdmitted(geo: Geography) returns (spec: ClusterSpec)
    ensures spec.network.Some? && !SubnetIsWellFormed(PrivateNetworkOf(spec)) && NetworkIsWellFormed(spec, geo)
  {
    var pn := PrivateNetworkSpec(true, Some("11111111-1111-1111-1111-111111111111"), Some("192.168.0.0/24"));
    spec := ClusterSpec("fr-par", "credentials", [], Some(NetworkSpec(Some(pn), None, [])), None);
    SubnetClashIsAdmittedExactlyWithoutAGateway(spec, geo);
  }

  // ---- Updates of a cluster ----

  /** The fields an update may not change, with an absent section read as empty. */
  predicate SameImmutableFields(a: ClusterSpec, b: ClusterSpec) {
    && a.region == b.region
    && a.secretName == b.secretName
    && PrivateNetworkOf(a) == PrivateNetworkOf(b)
    && PublicGatewayOf(a) == PublicGatewayOf(b)
    && LoadBalancerZoneOf(a) == LoadBalancerZoneOf(b)
    && LoadBalancerIPOf(a) == LoadBalancerIPOf(b)
  }

  function Normalised(spec: ClusterSpec): ClusterSpec {
    spec.(network := if spec.network.None? then Some(NetworkSpec(None, None, [])) else spec.network,
          loadBalancer := if spec.loadBalancer.None? then Some(LoadBalancerSpec(None, None, None, []))
              else spec.loadBalancer)
  }

  class ScalewayCluster {
    var spec: ClusterSpec

    constructor (spec: ClusterSpec)
      ensures this.spec == spec
    {
      this.spec := spec;
    }

    /** Fills in absent sections, as the update check does before comparing. */
    method FillIn()
      modifies this`spec
      ensures spec == Normalised(old(spec))
      ensures spec.network.Some? && spec.loadBalancer.Some?
      ensures SameImmutableFields(spec, old(spec))
    {
      if spec.network.None? {
        spec := spec.(network := Some(NetworkSpec(None, None, [])));
      }
      if spec.loadBalancer.None? {
        spec := spec.(loadBalancer := Some(LoadBalancerSpec(None, None, None, [])));
      }
    }

    /** Reports each changed immutable field, and leaves both objects with their
        absent sections filled in. */
    method EnforceImmutability(previous: ScalewayCluster) returns (errors: seq<Field>)
      requires previous != this
      modifies this`spec, previous`spec
      ensures errors == ChangedFields(old(previous.spec), old(spec))
      ensures spec == Normalised(old(spec)) && previous.spec == Normalised(old(previous.spec))
    {
      hide Normalised;
      errors := [];
      if spec.region != previous.spec.region {
        errors := errors + [RegionField];
      }
      if spec.secretName != previous.spec.secretName {
        errors := errors + [SecretNameField];
      }
      FillIn();
      previous.FillIn();
      var network, previousNetwork := spec.network.value, previous.spec.network.value;
      if network.privateNetwork != previousNetwork.privateNetwork {
        errors := errors + [PrivateNetworkField];
      }
      if network.publicGateway != previousNetwork.publicGateway {
        errors := errors + [PublicGatewayField];
      }
      var lb, previousLB := spec.loadBalancer.value, previous.spec.loadBalancer.value;
      if previousLB.zone != lb.zone {
        errors := errors + [LoadBalancerZoneField];
      }
      if previousLB.ip != lb.ip {
        errors := errors + [LoadBalancerIPField];
      }
    }
  }

  function AppendIf(errors: seq<Field>, changed: bool, field: Field): seq<Field> {
    if changed then errors + [field] else errors
  }

  /** The error list of an update, in the order of the checks. */
  function ChangedFields(a: ClusterSpec, b: ClusterSpec): seq<Field> {
    var region := AppendIf([], b.region != a.region, RegionField);
    var secret := AppendIf(region, b.secretName != a.secretName, SecretNameField);
    var network := AppendIf(secret, PrivateNetworkOf(b) != PrivateNetworkOf(a), PrivateNetworkField);
    var gateway := AppendIf(network, PublicGatewayOf(b) != PublicGatewayOf(a), PublicGatewayField);
    var zone := AppendIf(gateway, LoadBalancerZoneOf(a) != LoadBalancerZoneOf(b), LoadBalancerZoneField);
    AppendIf(zone, LoadBalancerIPOf(a) != LoadBalancerIPOf(b), LoadBalancerIPField)
  }

  /** An update passes exactly when no immutable field changed; filling in
      absent sections is not a change. */
  lemma NoErrorsExactlyWhenUnchanged(a: ClusterSpec, b: ClusterSpec)
    ensures ChangedFields(a, b) == [] <==> SameImmutableFields(a, b)
    ensures ChangedFields(Normalised(a), Normalised(b)) == ChangedFields(a, b)
  {
    FillingInKeepsFields(a);
    FillingInKeepsFields(b);
    hide AppendIf, Normalised, PrivateNetworkOf, PublicGatewayOf, LoadBalancerZoneOf, LoadBalancerIPOf;
    var region := AppendIf([], b.region != a.region, RegionField);
    var secret := AppendIf(region, b.secretName != a.secretName, SecretNameField);
    var network := AppendIf(secret, PrivateNetworkOf(b) != PrivateNetworkOf(a), PrivateNetworkField);
    var gateway := AppendIf(network, PublicGatewayOf(b) != PublicGatewayOf(a), PublicGatewayField);
    var zone := AppendIf(gateway, LoadBalancerZoneOf(a) != LoadBalancerZoneOf(b), LoadBalancerZoneField);
    AppendedIf([], b.region != a.region, RegionField);
    AppendedIf(region, b.secretName != a.secretName, SecretNameField);
    AppendedIf(secret, PrivateNetworkOf(b) != PrivateNetworkOf(a), PrivateNetworkField);
    AppendedIf(network, PublicGatewayOf(b) != PublicGatewayOf(a), PublicGatewayField);
    AppendedIf(gateway, LoadBalancerZoneOf(a) != LoadBalancerZoneOf(b), LoadBalancerZoneField);
    AppendedIf(zone, LoadBalancerIPOf(a) != LoadBalancerIPOf(b), LoadBalancerIPField);
  }

  lemma AppendedIf(errors: seq<Field>, changed: bool, field: Field)
    ensures AppendIf(errors, changed, field) == [] <==> errors == [] && !changed
  {
  }

  /** Filling in absent sections changes none of the compared fields. */
  lemma FillingInKeepsFields(a: ClusterSpec)
    ensures var n := Normalised(a);
            && n.region == a.region && n.secretName == a.secretName
            && PrivateNetworkOf(n) == PrivateNetworkOf(a) && PublicGatewayOf(n) == PublicGatewayOf(a)
            && LoadBalancerZoneOf(n) == LoadBalancerZoneOf(a) && LoadBalancerIPOf(n) == LoadBalancerIPOf(a)
  {
  }

  /** A history of a cluster's spec in which every update was admitted. */
  predicate AdmittedHistory(history: seq<ClusterSpec>) {
    |history| > 0 && forall i | 0 < i < |history| :: SameImmutableFields(history[i - 1], history[i])
  }

  /** Whatever updates were admitted, what the controller owns and what the
      user supplied has not changed. */
  lemma {:induction false} HistoryKeepsImmutableFields(history: seq<ClusterSpec>, i: nat)
    requires AdmittedHistory(history) && i < |history|
    ensures SameImmutableFields(history[0], history[i])
    ensures ShouldManagePrivateNetwork(history[i]) == ShouldManagePrivateNetwork(history[0])
    ensures HasPublicGateway(history[i]) == HasPublicGateway(history[0])
  {
    if i > 0 {
      HistoryKeepsImmutableFields(history, i - 1);
    }
  }

  /** The zones follow the failure domains unless they are written down: they
      are stable exactly when explicit, or when the first choice is. */
  lemma ZonesAreStableExactlyWhen(a: ClusterSpec, b: ClusterSpec)
    requires SameImmutableFields(a, b)
    ensures LoadBalancerZone(a) == LoadBalancerZone(b)
       <==> LoadBalancerZoneOf(a).Some? || FirstChoice(a) == FirstChoice(b)
    ensures PublicGatewayZone(a) == PublicGatewayZone(b)
       <==> (PublicGatewayOf(a).Some? && PublicGatewayOf(a).value.zone.Some?) || FirstChoice(a) == FirstChoice(b)
  {
  }

  // ---- Updates of a machine ----

  method ValidateMachine(spec: MachineSpec) returns (ok: bool)
    ensures ok <==> spec.rootVolumeSize == None || spec.rootVolumeSize.value >= 5
  {
    var errors: seq<Field> := [];
    if spec.rootVolumeSize.Some? && spec.rootVolumeSize.value < 5 {
      errors := errors + [RootVolumeSizeField];
    }
    ok := errors == [];
  }

  /** What an update of a machine keeps: the provider ID once set, the public-IP
      choice (unset may only become false), and all creation parameters. */
  predicate MachineUpdateIsAllowed(a: MachineSpec, b: MachineSpec) {
    && (a.providerID.Some? ==> b.providerID == a.providerID)
    && (a.publicIP.Some? ==> b.publicIP == a.publicIP)
    && (a.publicIP.None? ==> b.publicIP != Some(true))
    && a.(providerID := None, publicIP := None) == b.(providerID := None, publicIP := None)
  }

  method EnforceMachineImmutability(previous: MachineSpec, spec: MachineSpec) returns (errors: seq<Field>)
    ensures errors == [] <==> MachineUpdateIsAllowed(previous, spec)
    ensures ProviderIDField in errors <==> previous.providerID.Some? && spec.providerID != previous.providerID
  {
    errors := [];
    if previous.providerID.Some? && spec.providerID != previous.providerID {
      errors := errors + [ProviderIDField];
    }
    if spec.image != previous.image {
      errors := errors + [ImageField];
    }
    if spec.offer != previous.offer {
      errors := errors + [TypeField];
    }
    if previous.rootVolumeSize != spec.rootVolumeSize {
      errors := errors + [RootVolumeSizeField];
    }
    if previous.rootVolumeType != spec.rootVolumeType {
      errors := errors + [RootVolumeTypeField];
    }
    if previous.publicIP.Some? && previous.publicIP != spec.publicIP {
      errors := errors + [PublicIPField];
    }
    if previous.publicIP.None? && spec.publicIP == Some(true) {
      errors := errors + [PublicIPField];
    }
    if previous.securityGroupName != spec.securityGroupName {
      errors := errors + [SecurityGroupNameField];
    }
  }

  /** Over any admitted chain of updates a machine keeps its need of a public
      IP, and a provider ID that was set stays. */
  lemma {:induction false} MachineHistoryKeepsIdentity(history: seq<MachineSpec>, i: nat, j: nat)
    requires forall k | 0 < k < |history| :: MachineUpdateIsAllowed(history[k - 1], history[k])
    requires i <= j < |history|
    ensures NeedsPublicIP(history[j]) == NeedsPublicIP(history[i])
    ensures history[i].providerID.Some? ==> history[j].providerID == history[i].providerID
  {
    if i < j {
      MachineHistoryKeepsIdentity(history, i, j - 1);
    }
  }
}
