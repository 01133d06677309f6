# A verified model of the Scaleway cluster-API provider

The repository is a Kubernetes controller that makes a cloud account match a
declared cluster and its machines. This project models its reconcilers, its
admission checks and its rule compiler in Dafny and proves what they keep, also
when a pass is cut off between any two requests and run again, and when several
reconcilers work side by side.

Every request to the cloud has three outcomes: it succeeds, it fails without
effect, or it takes effect and its reply is lost. The last one also stands for
a crash right after the request; a failure stands for a crash right before it.

| file | what it models |
|---|---|
| Api | the three outcomes of a request |
| Decimal, Ports, Cidr | numbers, port ranges and IPv4 CIDR texts (section 3.1 of RFC 4632): parsing, printing, masking |
| SecurityRules | declared and instance rules, their compilation and comparison, and what both mean for a packet |
| SecurityGroups | the security-group pass: one listing, then deletes, creates and updates |
| Webhook, Scope | admission and update checks; zones, names and other derived facts |
| AccessControl, AclPass | the access-control list of the frontend: what it admits, and the cluster pass over it while machines edit it |
| LoadBalancing | control-plane backend and frontend |
| MachineProtocol | one machine's part of the cloud as a state machine, its invariant and its runs |
| MachineCloud, Machines, MachineTeardown, MachineController | the machine reconciler as code: every request it sends is one the state machine allows |
| Leftovers | runs that end where one would not want them to |
| Fleet | any number of machine reconcilers and the cluster reconciler, interleaved on one load balancer |
| ClusterCloud, ClusterPass, ClusterController | network, gateway, load balancer, ownership, finalizer |

Every object that stands for a part of the cloud counts the requests that did not
succeed, and so do the controllers for their patches. That is how the contracts
say when a pass gets through: a pass that ends with the error of a request has
seen one fail, and every other way not to finish is named with the state or the
input it is due to. So a pass in which no request fails, and nothing named is in
its way, succeeds.

What the declaration asks for is stated on its fields, and on names, tags, ports
and addresses as they are written, not through the functions the code derives
them with.

How the machine part fits together: `MachineProtocol` says which requests are
allowed in which state, and proves that requests and events keep the invariant,
so it holds in every state of every run. `Machines` and `MachineTeardown` model
the code; the method that sends a request demands that the request is allowed,
and every state is logged, so that the log of every execution is a run. `Fleet`
proves that, whatever the others do, each machine's view of the shared cloud
still goes through a run of the same state machine.

Long functions of the source are split where they move from one resource to the
next, with the requests in the source's order: the reconciler into Reconcile,
Bring, Admit and Start, the deletion into Delete, DeleteBegun, TakeDown and
Dismantle. The calls that a deletion makes to the two load-balancer helpers,
without an address and with the deletion flag, are RemoveAcl and RemoveFromPool.

## Where the code differs from what one might expect

The model follows the code in these places.

- **Access-control entries are rewritten in every pass.** The lists compared at
  `internal/service/scaleway/loadbalancer/loadbalancer.go:227` and
  `internal/service/scaleway/instance/instance.go:339` are lists of string
  pointers, freshly made on one side, so a non-empty list never compares equal.
  An entry that exists is updated each time, and its action and index with it. A
  pass that succeeds sends no write exactly when no ranges are declared, no
  gateway has an address, and none of the entries it looks at is there.
- **A CIDR text that is not in canonical form never compares equal.** Such rules
  are rewritten in every pass; with canonical texts a second pass sends nothing.
  Both directions are proved.
- **`to < from` is checked before the cut to 32 bits**
  (`api/v1beta1/scalewaycluster_types.go:140-144`). Numbers survive exactly when
  the upper one is below 2^32, and `1-4294967296` is accepted as `1-0`. A rule
  keeps its meaning exactly then, or when it is about ICMP.
- **A gateway ID without a zone makes the validator crash**
  (`api/v1beta1/scalewaycluster_webhook.go:183-189`). Since the schema gives the
  gateway type a default and an ID excludes a type, a gateway by ID is never
  admitted once the defaults are filled in.
- **The check of subnet against network ID only happens when a gateway is
  declared** (`api/v1beta1/scalewaycluster_webhook.go:192-202`). A subnet for an
  existing network is admitted exactly without a gateway.
- **With a user-supplied network the status is never filled in**
  (`internal/service/scaleway/vpc/vpc.go:61-63`), and a pass whose status holds
  no network cannot succeed: it stops on a nil dereference
  (`internal/scope/cluster.go:181`).
- **A public IP whose server was never created is not released**
  (`internal/service/scaleway/instance/instance.go:453-457`), and **a boot volume
  detached by a pass that then stopped is left behind** (lines 523-536). The
  contracts say exactly when, and `Leftovers` has a run for each.
- **A control-plane machine on a Private Network that has no NIC, or a NIC without
  an address, cannot be deleted**
  (`internal/service/scaleway/instance/instance.go:477-480` and `:196-205`); nor can it
  while the status of the cluster does not hold the network (lines 472-475).
  `Leftovers` has a run for each of the first two. The contracts give both
  directions: a deletion succeeds only if an address was seen on the way, and an
  error that is not that of a request comes from one of these states, or from a
  server that was going away already. Without a NIC every retry fails; a NIC
  without an address stops it until one is assigned.
- **Failure domains may change and can move the zone of load balancer and gateway**
  (`internal/scope/cluster.go:118-120`). What is in the old zone is then not
  found by the teardown, and remains: nothing is left if and only if everything
  was in the zones of the last pass. What remains on a managed network keeps the
  network from being deleted, and the finalizer with it.
- **A pool address read before the own server vanished can by then be another
  machine's.** A deletion could then remove it, and `Leftovers` has an interleaved
  run. `Fleet` proves that this is the only way: as long as the own server has not
  vanished, and the machine has not deleted it, since the address was read, the
  removal hits nobody else. The fleet theorems assume that it hits nobody else
  after that either, that is, that the address of a vanished server is not handed
  out again while a pass that read it is still running.
- **A machine with neither a public IP nor a Private Network never comes up**
  (`internal/service/scaleway/instance/instance.go:213-215`): it has no address to be
  known by, although its server is made.
- **A machine for which somebody else wrote another provider ID never finishes.**
  The controller writes the ID of its server, which the webhook refuses then
  (`api/v1beta1/scalewaymachine_webhook.go:46-49`); it never refuses otherwise.
- **Security groups are looked up by name alone**
  (`internal/service/scaleway/client/instance.go:67-83`), and two clusters can share one:
  cluster `a` with group `b-c`, and cluster `a-b` with group `c`. `Scope` states
  exactly when; that it does not happen is assumed below.

## Assumptions about the cloud

- Rules are listed in the order of their positions. Access-control entries are
  evaluated in the order of their index, the first hit decides, and no hit
  admits. Terminating a server destroys the volumes attached to it. A listing
  shows the state at one moment.
- The cloud gives out no ID twice and no address that is held. A listing by tag
  or name finds what the cluster or machine made and nothing else: users and
  other clusters do not use its names and tags, and nobody else edits what it
  owns. In particular no two clusters have groups whose names clash as said above.
  Names of clusters and of machines are unique and are not reused while
  something of that name still exists.
- One pass at a time works on one object. A pass that reads the object after
  its deletion was requested is a deletion; the deletion passes come after all
  others.
- What is behind the load balancer of a zone, its backends, frontends and access
  list, is handed to a pass together with the zone.
- The load balancer of a cluster is taken down only when its machines are being
  taken down. A load balancer, an instance or a network that the requests name
  behaves as the SDK documents it.

## Model

| member | source | states |
|---|---|---|
| Ports.AcceptsExactlyWrittenPorts | api/v1beta1/scalewaycluster_types.go:114-148 | `ToRange` accepts exactly a decimal number, or two joined by one dash with the first not above the second |
| Ports.WrittenPortParses | api/v1beta1/scalewaycluster_types.go:122-128 | every text that writes a number parses to that number cut to 32 bits, with no upper port |
| Ports.WrittenRangeParses | api/v1beta1/scalewaycluster_types.go:129-144 | every text that writes a range in order parses to both numbers cut to 32 bits |
| Ports.PrintedPortRoundTrips | api/v1beta1/scalewaycluster_types.go:122-128 | below 2^32, parsing the printed port gives the port back |
| Ports.PrintedRangeRoundTrips | api/v1beta1/scalewaycluster_types.go:129-144 | below 2^32 and in order, parsing the printed range gives the range back |
| Ports.NumbersSurviveExactlyBelow32Bits | api/v1beta1/scalewaycluster_types.go:140-144 | an accepted range keeps its numbers if and only if the upper one is below 2^32 |
| Ports.WrappedRangeIsDescending | api/v1beta1/scalewaycluster_types.go:140-144 | a range accepted in order that comes out in descending order |
| Cidr.ContainsMeansSharedPrefix | internal/service/scaleway/securitygroup/securitygroup.go:103-119 | masked comparison of addresses is equality of the prefix bits |
| Cidr.MaskingKeepsMembers | internal/service/scaleway/securitygroup/securitygroup.go:103-119 | masking the base address keeps the set of addresses a prefix stands for |
| Cidr.PrintedNetParses | internal/service/scaleway/securitygroup/securitygroup.go:60-70 | parsing a printed network gives its address and mask back |
| Cidr.ReprintsItselfExactlyWhenCanonical | internal/service/scaleway/securitygroup/securitygroup.go:60-70 | a CIDR text equals its parsed and reprinted form if and only if it is canonical |
| Cidr.AcceptsExactlyWrittenNets | internal/service/scaleway/securitygroup/securitygroup.go:60-70 | the parser accepts exactly four plain octets and a length of at most 32 in digits, and reads them as they are written |
| SecurityRules.CompareRules | internal/service/scaleway/securitygroup/securitygroup.go:36-86 | true exactly when the lists have one length and agree rule by rule; an error exactly behind a prefix that agrees |
| SecurityRules.CompilesExactlyWhenWellWritten | api/v1beta1/scalewaycluster_types.go:114-234 | a rule compiles if and only if its action is Accept or Drop, its protocol absent or one of the four, its ports absent or a written port or range, and its range absent or a written network |
| SecurityRules.CompileRules | internal/service/scaleway/securitygroup/securitygroup.go:224-268 | the request rules in order, with the direction and positions from 1, if and only if every text is one of the known ones; otherwise an error exactly when some rule does not compile |
| SecurityRules.CompiledRuleComparesEqualIff | internal/service/scaleway/securitygroup/securitygroup.go:36-124 | a rule compares equal to its own compiled form if and only if its range is absent or canonical |
| SecurityRules.StoredRulesCompareEqualIffCanonical | internal/service/scaleway/securitygroup/securitygroup.go:36-124 | the same for rule lists of any length |
| SecurityRules.PortsKeepMeaning | api/v1beta1/scalewaycluster_types.go:114-148 | for ports below 2^32 the parsed range covers exactly the ports the text says |
| SecurityRules.CoverageSurvivesExactly | api/v1beta1/scalewaycluster_types.go:114-148 | an accepted port text covers the same port numbers after the cut if and only if its last number is below 2^32, single ports included |
| SecurityRules.PacketCoverageSurvivesExactly | api/v1beta1/scalewaycluster_types.go:140-144 | for the ports below 2^16 alone, an accepted range covers the same ones iff its upper number is below 2^32 or the wrap falls outside them |
| SecurityRules.CompiledRuleAgrees | internal/service/scaleway/securitygroup/securitygroup.go:88-124 | a compiled rule matches exactly the packets the declared rule describes, canonical range or not, if and only if its port numbers are below 2^32 or it is about ICMP |
| SecurityRules.AcceptedRuleAgrees | internal/service/scaleway/securitygroup/securitygroup.go:36-86 | so does a stored rule that the comparison accepts, under the same condition |
| SecurityRules.AgreeingRulesDecideAlike | internal/service/scaleway/securitygroup/securitygroup.go:224-280 | rule lists that agree one by one take the same first-match decision |
| SecurityRules.PolicyMeaningIsPreserved | internal/service/scaleway/securitygroup/securitygroup.go:26-124 | if every rule keeps its meaning, stored rules and default decide every packet as the declared policy does, whether rules were compiled or accepted |
| SecurityGroups.GroupCloud.List | internal/service/scaleway/securitygroup/securitygroup.go:131-139 | the listing holds exactly the cluster's groups in the zones |
| SecurityGroups.DeleteStale | internal/service/scaleway/securitygroup/securitygroup.go:141-153 | deletes listed groups that no spec names, and only those; on success all of them |
| SecurityGroups.EnsurePolicies | internal/service/scaleway/securitygroup/securitygroup.go:158-212 | finds, creates or updates the group of one spec and zone from the old listing; a write takes work off |
| SecurityGroups.EnsureRules | internal/service/scaleway/securitygroup/securitygroup.go:213-280 | compares the stored rules per direction and replaces them exactly when they are not accepted |
| SecurityGroups.EnsureSecurityGroups | internal/service/scaleway/securitygroup/securitygroup.go:128-293 | whatever its outcome the pass touches only the cluster's groups, those of every other cluster stay as they are, what it makes is stateful, and it makes no duplicate; every write that takes effect is paid for by remaining work; on success everything is as desired; it only fails after a failing request, or on a rule that does not convert |
| SecurityGroups.RerunPass | internal/service/scaleway/securitygroup/securitygroup.go:128-293 | over any number of passes, cut off anywhere, the writes that take effect are bounded by the initial work |
| SecurityGroups.CompiledIsMasked | internal/service/scaleway/securitygroup/securitygroup.go:103-119 | everything that is compiled is a masked network |
| SecurityGroups.ConvergedIsQuietExactlyWhenCanonical | internal/service/scaleway/securitygroup/securitygroup.go:141-289 | after a successful pass there is nothing left to write if and only if every range is canonical |
| SecurityGroups.ConvergedGroupsMeanTheSpec | internal/service/scaleway/securitygroup/securitygroup.go:128-293 | in a converged state each zone has, under the tag and name written out, a group for each declared one that decides every packet in both directions as declared, and no other group under the tag |
| Scope.Zones | internal/scope/cluster.go:68-85 | the zones of the region that are compatible, in the region's order, all of them if nothing is said, the first zone of the region if there are none; never empty, no zone twice |
| Scope.ClusterTagsAreTheirOwn | internal/scope/cluster.go:200-204 | two clusters never have one tag |
| Scope.MachineNamesAreTheirOwn | internal/scope/machine.go:98-101 | a machine's resource name is none of the fixed entry names, and no two machines share one |
| Scope.SecurityGroupNamesAreInjective | internal/scope/cluster.go:206-210 | different group names of one cluster give different resource names |
| Scope.GroupNamesClashExactlyWhen | internal/scope/cluster.go:206-210 | groups of two clusters share a resource name exactly when one cluster's name continues the other's after a dash and the group's name continues with it |
| Scope.TwoClustersShareAGroup | internal/service/scaleway/client/instance.go:67-83 | two clusters whose groups are looked up under one name |
| Webhook.ValidateSecurityGroupPolicy | api/v1beta1/scalewaycluster_webhook.go:227-264 | admits exactly the policies whose texts are well formed: default absent, Accept or Drop; known actions and protocols; ports as they are written, and only with TCP or UDP; ranges that write a network |
| Webhook.ValidateNetworkSpec | api/v1beta1/scalewaycluster_webhook.go:131-225 | admits exactly the well-formed networks with unique group names, and crashes exactly on a gateway ID without a zone |
| Webhook.ValidateFailureDomains | api/v1beta1/scalewaycluster_webhook.go:69-103 | admits exactly distinct zones of the cluster's region |
| Webhook.WellFormedRuleNeverFails | api/v1beta1/scalewaycluster_webhook.go:236-261 | an admitted rule compiles, and comparing it with any stored rule gives an answer |
| Webhook.AdmittedNetworkNeverFails | api/v1beta1/scalewaycluster_webhook.go:205-264 | for an admitted network every conversion of the security-group pass succeeds and the resource names are distinct |
| Webhook.DefaultedGatewayByIdIsNeverAdmitted | api/v1beta1/scalewaycluster_webhook.go:166-190 | with the schema's defaults a gateway by ID is never admitted and the crash is out of reach |
| Webhook.SubnetClashIsAdmittedExactlyWithoutAGateway | api/v1beta1/scalewaycluster_webhook.go:192-202 | a subnet for an existing network is admitted if and only if no gateway is declared and the groups are well formed |
| Webhook.ASubnetClashIsAdmitted | api/v1beta1/scalewaycluster_webhook.go:192-202 | a declaration with both that is admitted in every region table |
| Webhook.ScalewayCluster.FillIn | api/v1beta1/scalewaycluster_webhook.go:277-299 | fills in absent sections and changes no immutable field |
| Webhook.ScalewayCluster.EnforceImmutability | api/v1beta1/scalewaycluster_webhook.go:266-314 | reports each changed immutable field in order, and leaves both objects with absent sections filled in |
| Webhook.NoErrorsExactlyWhenUnchanged | api/v1beta1/scalewaycluster_webhook.go:266-314 | no error exactly when no immutable field changed; filling in absent sections is no change |
| Webhook.HistoryKeepsImmutableFields | api/v1beta1/scalewaycluster_webhook.go:324-333 | over any chain of admitted updates the immutable fields, and so ownership, stay |
| Webhook.ZonesAreStableExactlyWhen | internal/scope/cluster.go:110-138 | an admitted update keeps the zones if and only if they are written down or the first choice stays |
| Webhook.ValidateMachine | api/v1beta1/scalewaymachine_webhook.go:29-41 | admits exactly an absent root volume size or one of at least 5 GB |
| Webhook.EnforceMachineImmutability | api/v1beta1/scalewaymachine_webhook.go:43-87 | no error exactly for an allowed update; the provider ID is set once |
| Webhook.MachineHistoryKeepsIdentity | api/v1beta1/scalewaymachine_webhook.go:96-104 | over any chain of admitted updates the need of a public IP and a set provider ID stay |
| AccessControl.AllowsBeforeDenies | internal/service/scaleway/loadbalancer/loadbalancer.go:242-285 | with all allow entries first, an address is admitted iff an allow entry hits it or no deny entry does |
| AccessControl.AdmissionIsOrderFree | internal/service/scaleway/loadbalancer/loadbalancer.go:242-285 | under the invariant every evaluation order admits the same addresses; ties do not matter |
| AccessControl.ListMeansTheDeclaration | internal/service/scaleway/loadbalancer/loadbalancer.go:242-285 | of a list with the declared entries: an address is admitted iff no range is declared, or it is in one, a gateway's or a machine's |
| AccessControl.SafeRangesAreAdmitted | internal/service/scaleway/loadbalancer/loadbalancer.go:242-285 | with the ranges entry in place, or no deny-all, every address of the ranges is admitted |
| AccessControl.SomeOrder | internal/service/scaleway/loadbalancer/loadbalancer.go:242-285 | every list can be evaluated in some order by index |
| AccessControl.AdmittedExactlyAsDeclared | internal/service/scaleway/loadbalancer/loadbalancer.go:242-285 | read as IPv4 CIDR texts and addresses, a list with the declared entries lets an address in if and only if the declaration says so, in every order |
| AccessControl.EntryAdmitsItsRanges | internal/service/scaleway/loadbalancer/loadbalancer.go:242-285 | with a ranges entry in place, or no deny-all, every address of the ranges is let in, in every order |
| AclPass.StringSlicePtr | internal/service/scaleway/loadbalancer/loadbalancer.go:227 | the texts are the given ones and every pointer is new |
| AclPass.EnsureACL | internal/service/scaleway/loadbalancer/loadbalancer.go:185-240 | the entry becomes what is wanted or goes; all other fixed entries stay in every state on the way, and only the last state differs in this one; a success sends no write exactly when nothing is wanted and nothing was there |
| AclPass.CollectGatewayAddresses | internal/service/scaleway/loadbalancer/loadbalancer.go:262-268 | the addresses of the gateways that have one, in order: a text is in the list if and only if it is the address of one of them |
| AclPass.EnsureEntries | internal/service/scaleway/loadbalancer/loadbalancer.go:242-285 | on success the three entries are as declared, with machines editing theirs at any time; once the ranges entry is written, also with a lost reply, every later state has it; a success sends no write exactly when nothing is declared and nothing is there |
| AclPass.PassLeavesTheDeclaration | internal/service/scaleway/loadbalancer/loadbalancer.go:242-285 | the entries a successful pass leaves are the declared ones |
| AclPass.EnsureACLs | internal/service/scaleway/loadbalancer/loadbalancer.go:242-285 | if nothing denied at the start every state of the pass lets every address of the ranges in, otherwise every state from the one on in which the ranges entry is written, also if the reply was lost and the pass failed; what old and new ranges share is let in all the time; after success the entries are the written ones, and an address is let in exactly if no range is declared or it is in a range, an attached gateway's, or in a machine's entry; it only fails after a failing request |
| LoadBalancing.EnsureBackend | internal/service/scaleway/loadbalancer/loadbalancer.go:100-143 | with machines editing the pool before the listing and before every delete, an existing control-plane backend survives every outcome and its pool changes by their edits alone; on success it is the only backend, on port 6443; it only fails after a failing request |
| LoadBalancing.EnsureFrontend | internal/service/scaleway/loadbalancer/loadbalancer.go:145-183 | with machines editing the pool all the while, an existing control-plane frontend survives every outcome; on success it is the only one, on port 6443, and targets the backend; it only fails after a failing request |
| LoadBalancing.DeleteStrayBackends | internal/service/scaleway/loadbalancer/loadbalancer.go:109-123 | the loop keeps the last backend of the name in the listing and deletes what has another name |
| LoadBalancing.FindBackend | internal/service/scaleway/client/loadbalancer.go:29-51 | the first backend of the name in some listing, or none exactly if there is none |
| LoadBalancing.BothLookupsAgree | internal/service/scaleway/client/loadbalancer.go:29-51 | first match, as machines look, and last match, as the pass looks, pick the same backend in any listing order |
| MachineProtocol.RequestsKeepTheInvariant | internal/service/scaleway/instance/instance.go:394-558 | every request a machine's reconciler may send keeps the invariant of the machine's part |
| MachineProtocol.EventsKeepTheInvariant | internal/service/scaleway/instance/instance.go:193-218 | so does everything the cloud and its users do by themselves |
| MachineProtocol.RunsKeepTheInvariant | internal/service/scaleway/instance/instance.go:394-558 | the invariant holds in every state of every run: at most one IP, server, NIC and entry, and entries only for a live server |
| MachineProtocol.SameServerThroughout | internal/service/scaleway/instance/instance.go:431 | until the teardown begins the machine keeps the one server it was given, and so its provider ID |
| MachineProtocol.CloudInitIsWrittenOnce | internal/service/scaleway/instance/instance.go:239-277 | cloud-init is written at most once, for this server, never changes, and is there whenever the server was powered on |
| MachineProtocol.PowerOnIsReady | internal/service/scaleway/instance/instance.go:415-429 | at power-on cloud-init is set, a control-plane address is in the pool and a public IP has its entry |
| MachineProtocol.EntriesGoFirst | internal/service/scaleway/instance/instance.go:462-504 | a pool or access-control entry exists only while the server does; a server goes only after its entries |
| MachineProtocol.TheServerGoesLast | internal/service/scaleway/instance/instance.go:452-558 | a state that lacks a server there once was has no IP and no entry of the machine either |
| MachineProtocol.DataVolumesSurvive | internal/service/scaleway/instance/instance.go:506-518 | every data volume attached when the teardown begins exists in every later state |
| MachineCloud.MachineCloud.Request | internal/service/scaleway/instance/instance.go:394-558 | an allowed request with three outcomes, then any events; the log stays a run of the protocol |
| MachineCloud.MachineCloud.FindIP | internal/service/scaleway/client/instance.go:29-47 | none or the one IP of the machine's tags; the error for several is out of reach |
| MachineCloud.MachineCloud.FindServer | internal/service/scaleway/client/instance.go:11-27 | the machine's server with its state, public IP and volumes as they are |
| Machines.GetOrCreateIP | internal/service/scaleway/instance/instance.go:42-68 | an IP exactly if the machine needs one; never a second one |
| Machines.GetOrCreateServer | internal/service/scaleway/instance/instance.go:70-143 | the machine's server, found or made with its IP; never a second one |
| Machines.GetOrCreatePrivateNic | internal/service/scaleway/instance/instance.go:145-174 | a NIC exactly on a Private Network whose ID the cluster's status holds; never a second one |
| Machines.GetMachineIPs | internal/service/scaleway/instance/instance.go:193-218 | the private address iff there is a NIC and the public one iff there is a public IP, or the error that says which is missing |
| Machines.EnsureInPool | internal/service/scaleway/instance/instance.go:355-392 | on success a control-plane node's address is in the pool |
| Machines.EnsureLoadBalancerACL | internal/service/scaleway/instance/instance.go:295-353 | on success the machine's entry lets its public IP in |
| Machines.EnsureCloudInit | internal/service/scaleway/instance/instance.go:239-277 | on success a stopped server has cloud-init naming its address and itself |
| Machines.EnsureServerStarted | internal/service/scaleway/instance/instance.go:279-293 | a stopped server is powered on, which the protocol allows only when it is ready |
| Machines.Reconcile | internal/service/scaleway/instance/instance.go:394-450 | from any state earlier passes left, success means one started server with cloud-init for its address and itself, addresses, pool place and entry; what was made stays; it fails only after a failing request, without a bootstrap script, load balancer or known network, with an address not assigned yet, or for a machine that has neither network nor public IP |
| MachineTeardown.RemoveAcl | internal/service/scaleway/instance/instance.go:462-465 | afterwards the machine has no entry, also when there was no load balancer |
| MachineTeardown.RemoveFromPool | internal/service/scaleway/instance/instance.go:488-493 | afterwards the machine is in no pool, also when there was no load balancer |
| MachineTeardown.ReleaseIP | internal/service/scaleway/instance/instance.go:496-504 | on success no IP of the machine is left |
| MachineTeardown.DetachData | internal/service/scaleway/instance/instance.go:506-518 | on success no listed data volume is attached, in whatever order the volumes come |
| MachineTeardown.DeleteStopped | internal/service/scaleway/instance/instance.go:520-547 | on success the server is gone and exactly the boot volumes that were listed as attached are deleted |
| MachineTeardown.TerminateServer | internal/service/scaleway/instance/instance.go:549-557 | success means that the server is on its way out; a server that is gone already is an error of its own, and any other error is that of a failing request |
| MachineTeardown.Delete | internal/service/scaleway/instance/instance.go:452-558 | with a server: on success entry, pool place and IP are gone and the server is gone or terminating; without one nothing is touched, so an IP remains; a control-plane machine on a Private Network succeeds only if an address of it was seen meanwhile; it fails only after a failing request, or if it had no address, the network was unknown or the server was going away |
| MachineTeardown.RetryDelete | internal/service/scaleway/instance/instance.go:452-558 | however often it is cut off and retried: on success no entry, an IP only if there never was a server, and every data volume is there; a node without its NIC is never deleted, one without an address not before an address was seen; it only fails after a failing request, or in a state without an address, with an unknown network or with a server going away |
| MachineController.ScalewayMachine.ReconcileNormal | internal/controller/scalewaymachine_controller.go:120-153 | nothing is made before the finalizer is stored and the infrastructure is ready; success means one started server, with a public IP exactly if the declaration says so, named in full by the provider ID; what is stored is an update the webhook admits, and it refuses only if somebody else wrote another provider ID; every other outcome has its reason |
| MachineController.ScalewayMachine.Edit | api/v1beta1/scalewaymachine_webhook.go:96-104 | a user's update is stored exactly if it is allowed, and what the controller relies on stays |
| MachineController.ServerTextsAreTheirOwn | internal/scope/machine.go:103-105 | different servers have different provider IDs |
| MachineController.ScalewayMachine.ReconcileDelete | internal/controller/scalewaymachine_controller.go:155-163 | the finalizer goes only after a successful deletion, and then what remains is exactly an IP that never had a server; a control-plane machine keeps it while its server stays and no address was seen; it fails only after a failing request or when the deletion is hindered |
| Fleet.RequestIsLocal | internal/service/scaleway/instance/instance.go:295-392 | a machine's request changes its own view as the protocol says and no other machine's view at all |
| Fleet.RemovalHitsAnotherExactlyWhenReassigned | internal/service/scaleway/instance/instance.go:371-380 | in any state, taking an address out of the shared pool changes another machine's view if and only if that machine holds the address now and has it in the pool |
| Fleet.EventIsLocal | internal/service/scaleway/instance/instance.go:193-218 | an event at one machine changes no other machine's view |
| Fleet.ClusterEditsNoMachine | internal/service/scaleway/loadbalancer/loadbalancer.go:187-285 | the cluster pass over its three entries changes no machine's view |
| Fleet.ActionsKeepTheInvariant | internal/service/scaleway/instance/instance.go:394-558 | every action of anyone keeps all machines' invariants, addresses held once, the pool held, and the list's invariant |
| Fleet.EachMachineRuns | internal/service/scaleway/instance/instance.go:394-558 | in every interleaving, what one machine goes through is a run of its protocol |
| Fleet.PooledAddressesAreLive | internal/service/scaleway/instance/instance.go:355-392 | every pool address is the node address of exactly one machine, whose server exists and is not terminating |
| Fleet.StaleSnapshotsAreRight | internal/service/scaleway/instance/instance.go:360-389 | an old snapshot of the pool is still right about the machine's own addresses, whatever the others did since |
| Fleet.RemovalsAreFairUntilTheServerVanishes | internal/service/scaleway/instance/instance.go:371-380 | whatever everybody does, removing an address that was read hits nobody else unless the own server vanished, or the machine deleted it, since |
| Fleet.OthersAreDrift | internal/service/scaleway/instance/instance.go:295-392 | any action of somebody else is, in the machine's view, interference that its reconciler is shown to cope with |
| Fleet.BetweenRequestsTheViewDrifts | internal/service/scaleway/instance/instance.go:295-392 | the same for any stretch of an interleaved run without a request of the machine |
| Fleet.ReadingThePoolIsReadingTheView | internal/service/scaleway/instance/instance.go:371-382 | for an address nobody else holds, the shared pool has it exactly if the machine's own part does |
| Fleet.PublicIPIsLetIn | internal/service/scaleway/instance/instance.go:295-353 | a machine powered on with a public IP is admitted at that moment, whatever the cluster pass is doing to the list |
| Fleet.OnlyTheDeclaredAndTheMachinesAreLetIn | internal/service/scaleway/loadbalancer/loadbalancer.go:242-285 | with the declared entries in place an admitted address is in the ranges, a gateway's, or the public IP of a machine with a server |
| Leftovers.AnIPIsLeft | internal/service/scaleway/instance/instance.go:453-457 | a run from the start that ends with a public IP and no server, where Delete succeeds and touches nothing |
| Leftovers.ABootVolumeIsLeft | internal/service/scaleway/instance/instance.go:523-546 | a run from the start that ends with the server gone and its boot volume there |
| Leftovers.ANodeIsStuck | internal/service/scaleway/instance/instance.go:477-480 | a run from the start to a control-plane node without its NIC, which no deletion removes |
| Leftovers.ANodeWaitsForItsAddress | internal/service/scaleway/instance/instance.go:196-205 | a run from the start to a control-plane node whose NIC has no address, which no deletion removes until one is assigned |
| Leftovers.APoolPlaceIsTaken | internal/service/scaleway/instance/instance.go:371-380 | an interleaved run from the start after which a removal by one machine takes another one out of the pool |
| ClusterCloud.CloudApi.FindTaggedIP | internal/service/scaleway/client/vpcgw.go:49-68 | none or the one tagged gateway IP of the zone; the error for several is out of reach |
| ClusterCloud.CloudApi.CreateLb | internal/service/scaleway/loadbalancer/loadbalancer.go:36-66 | a load balancer where the zone had none, on the IP with the supplied address exactly if one was supplied |
| ClusterCloud.CloudApi.DeleteLb | internal/service/scaleway/loadbalancer/loadbalancer.go:358-368 | the load balancer goes, its IP with it exactly if it was automatic |
| ClusterPass.ReconcileNetwork | internal/service/scaleway/vpc/vpc.go:23-73 | the managed network's ID, found or made once and with DHCP; a supplied network leaves the status as it is |
| ClusterPass.DeleteNetwork | internal/service/scaleway/vpc/vpc.go:75-95 | on success no managed network is left, and nothing was on it |
| ClusterPass.GetOrCreateGatewayIP | internal/service/scaleway/vpcgw/vpcgw.go:24-50 | the free IP with the supplied address, or else the one tagged IP; never a second tagged one |
| ClusterPass.GetOrCreateGateway | internal/service/scaleway/vpcgw/vpcgw.go:52-81 | the cluster's gateway of the zone, found or made; never a second one |
| ClusterPass.ReconcileGateway | internal/service/scaleway/vpcgw/vpcgw.go:83-133 | on success the declared gateway is on the network |
| ClusterPass.DeleteGateway | internal/service/scaleway/vpcgw/vpcgw.go:135-178 | on success neither own gateway nor automatic IP is left in the zone, also when the gateway went in an earlier pass |
| ClusterPass.ListGatewaysOn | internal/service/scaleway/client/vpcgw.go:70-82 | exactly the gateways on the network in the zones, each with its address if it has one; it only fails with its request |
| ClusterPass.Admit | internal/service/scaleway/loadbalancer/loadbalancer.go:256-275 | after success an address is let in exactly if no range is declared or it is in a range, is that of a gateway linked to the network, or is in a machine's entry |
| ClusterPass.Configure | internal/service/scaleway/loadbalancer/loadbalancer.go:312-324 | backend, frontend and list in order: on success one of each, and exactly what is declared let in; pools change by machines alone |
| ClusterPass.ReconcileLb | internal/service/scaleway/loadbalancer/loadbalancer.go:287-346 | on success the zone has its load balancer, on the network, serving the control plane, letting in exactly what is declared, and the endpoint is its address; on the way nobody is locked out |
| ClusterPass.DeleteLb | internal/service/scaleway/loadbalancer/loadbalancer.go:348-371 | on success the zone has no load balancer of the cluster; other zones are untouched |
| ClusterPass.Build | internal/controller/scalewaycluster_controller.go:116-131 | network, gateway and load balancer are built in order; the network of the status is known also when a later step fails; a supplied network without a status crashes the pass; any other failure is that of a request, a load balancer that is not ready, a supplied IP that is not there, or a network without DHCP |
| ClusterPass.TakeDown | internal/controller/scalewaycluster_controller.go:145-160 | on success the zones of the pass are clear; a gateway or load balancer it cannot take off the network makes it fail; it fails only after a failing request or when the network is in use |
| ClusterController.UpdatesKeepTheEnv | api/v1beta1/scalewaycluster_webhook.go:266-314 | no admitted update changes which resources are the cluster's own, nor the declared network and gateway |
| ClusterController.NothingIsUnasked | internal/scope/cluster.go:150-170 | a network or gateway of its own exists only for a declaration that asks for one and names no existing one |
| ClusterController.BuiltIsAsDeclared | internal/scope/cluster.go:110-170 | what the services build is what the fields of the declaration say: own network, the named or an own gateway on it in its zone and on its supplied IP, and the load balancer in its zone and on its supplied IP |
| ClusterController.CannotBuildMeans | internal/service/scaleway/vpcgw/vpcgw.go:24-50 | what can stop a pass without a failing request, on the fields of the declaration: a supplied IP that is not there to be used, or a managed network without DHCP |
| ClusterController.NothingIsLeftExactlyWhenInZones | internal/scope/cluster.go:110-138 | after a teardown nothing of the cluster is left if and only if all it had was in the zones of the pass |
| ClusterController.ClearingLeavesOtherZones | internal/scope/cluster.go:110-138 | a teardown leaves exactly what is in other zones |
| ClusterController.TeardownLeavesExactly | internal/controller/scalewaycluster_controller.go:145-160 | a teardown leaves exactly what the user supplied and what is in other zones; a supplied IP is never released, an automatic one goes with its load balancer |
| ClusterController.MovedFailureDomainLeavesALb | internal/scope/cluster.go:118-120 | an admitted move of the failure domain within a region after which every teardown that succeeds leaves load balancer and IP behind |
| ClusterController.ManagedCluster.ReconcileNormal | internal/controller/scalewaycluster_controller.go:88-138 | nothing is made before the finalizer is stored; success means that groups, network, gateway, load balancer and access list are what the fields of the declaration say; other clusters' groups stay; the network of the status is stored also when a later step fails; admitted rules never fail; a crash only on a supplied network without a status, and any other outcome only after a failing request, a load balancer that is not ready, or something named that stands in the way |
| ClusterController.ManagedCluster.ReconcileDelete | internal/controller/scalewaycluster_controller.go:140-169 | the finalizer goes only when the zones are clear and no group is left; what remains is exactly what the user supplied and what was in other zones, so nothing of its own if and only if all was in the zones of the pass; a network that is still held keeps the finalizer; other clusters' groups stay; it fails only after a failing request or when the network is in use |

## Left out

- IPv6 CIDR texts: IPv6 is an address class that `::/0` covers.
- HTTP, pagination, credentials, contexts and the watch and patch machinery of the controllers; a patch is one persist of spec and status together, with three outcomes.
- Rendering of the bootstrap template, UUID parsing and image lookup: cloud-init keeps only the node address and the server it was given, and a lookup may fail.
- The status map of failure domains, and the pause, owner-reference and template handling around the reconcilers.
- The choice of the first IPv4 address of a load balancer that has several, and the error if it has none: the model's has one.
- Creation parameters that are only handed on: commercial types, images, volume sizes, health checks.
- Repair of load-balancer type, of the stateful flag of a security group, and of duplicates made by somebody else: the code attempts none of these.
- Access-control entries without a match section, and power states other than stopped, starting, running and terminating.
- Data volumes that a user attaches after the teardown has begun.
- The step from declared ranges to none: the ranges are removed before deny-all, so only the final state is claimed there.
- Cloud objects of one cluster are kept as values that the methods reassign, by ID; the SDK's pointers into responses are not modelled, except where the code compares them.
