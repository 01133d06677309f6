// The security-group pass: one listing, then deletes, creates and updates
// decided from that listing while the cloud changes underneath it.
module SecurityGroups {
  import opened Wrappers
  import opened Api
  import opened Ports
  import opened Cidr
  import opened SecurityRules
  import opened Scope

  datatype Group = Group(zone: string, name: string, tag: string, inbound: Action, outbound: Action,
                         defaultSecurity: bool, stateful: bool, rules: seq<Rule>)

  datatype Listed = Listed(id: nat, group: Group)

  datatype Failure = ApiFailure | RuleFailure(error: RuleError)

  type Groups = map<nat, Group>

  /** What one pass works towards. */
  datatype Desired = Desired(cluster: string, specs: seq<GroupSpec>, zones: seq<string>)

  ghost predicate WellPosed(d: Desired) {
    && (forall i, j | 0 <= i < j < |d.specs| :: d.specs[i].name != d.specs[j].name)
    && Distinct(d.zones)
  }

  predicate Own(g: Group, d: Desired) {
    g.tag == ClusterTag(d.cluster) && g.zone in d.zones
  }

  function NameOf(d: Desired, k: nat): string
    requires k < |d.specs|
  {
    SecurityGroupName(d.cluster, d.specs[k].name)
  }

  /** The group is the cluster's group for spec k in a zone. */
  predicate At(g: Group, d: Desired, k: nat, zone: string)
    requires k < |d.specs|
  {
    g.tag == ClusterTag(d.cluster) && g.zone == zone && g.name == NameOf(d, k)
  }

  predicate Wanted(g: Group, d: Desired) {
    exists k | 0 <= k < |d.specs| :: NameOf(d, k) == g.name
  }

  /** At most one group of the cluster per name and zone. */
  ghost predicate NoDuplicates(groups: Groups, d: Desired) {
    forall i, j | i in groups && j in groups && groups[i].tag == groups[j].tag == ClusterTag(d.cluster) ::
      groups[i].zone == groups[j].zone && groups[i].name == groups[j].name ==> i == j
  }

  function InDirection(rules: seq<Rule>, direction: Direction): seq<Rule> {
    if rules == [] then []
    else if rules[0].direction == direction then [rules[0]] + InDirection(rules[1..], direction)
    else InDirection(rules[1..], direction)
  }

  predicate PoliciesRight(g: Group, spec: GroupSpec) {
    && DefaultPolicy(spec.inbound) == Ok(g.inbound)
    && DefaultPolicy(spec.outbound) == Ok(g.outbound)
    && !g.defaultSecurity
  }

  /** The comparison accepts the stored rules. */
  predicate RulesAccepted(g: Group, spec: GroupSpec) {
    && AllSame(RulesOf(spec.inbound), InDirection(g.rules, Inbound))
    && AllSame(RulesOf(spec.outbound), InDirection(g.rules, Outbound))
  }

  /** The stored rules are the compiled ones. */
  predicate RulesCompiled(g: Group, spec: GroupSpec) {
    && CompilesTo(RulesOf(spec.inbound), Inbound, InDirection(g.rules, Inbound))
    && CompilesTo(RulesOf(spec.outbound), Outbound, InDirection(g.rules, Outbound))
  }

  predicate Right(g: Group, spec: GroupSpec) {
    PoliciesRight(g, spec) && (RulesAccepted(g, spec) || RulesCompiled(g, spec))
  }

  ghost predicate Settled(groups: Groups, d: Desired, k: nat, zone: string)
    requires k < |d.specs|
  {
    exists id | id in groups :: At(groups[id], d, k, zone) && Right(groups[id], d.specs[k])
  }

  /** The cloud holds exactly the desired groups, each one right. */
  ghost predicate Converged(groups: Groups, d: Desired) {
    && NoDuplicates(groups, d)
    && (forall id | id in groups && Own(groups[id], d) :: Wanted(groups[id], d))
    && (forall k, zone | 0 <= k < |d.specs| && zone in d.zones :: Settled(groups, d, k, zone))
  }

  // ---- Remaining work ----

  ghost function Stale(groups: Groups, d: Desired): set<nat> {
    set id | id in groups && Own(groups[id], d) && !Wanted(groups[id], d)
  }

  ghost predicate PolicyDone(groups: Groups, d: Desired, k: nat, zone: string)
    requires k < |d.specs|
  {
    exists id | id in groups :: At(groups[id], d, k, zone) && PoliciesRight(groups[id], d.specs[k])
  }

  ghost predicate RulesDone(groups: Groups, d: Desired, k: nat, zone: string)
    requires k < |d.specs|
  {
    exists id | id in groups :: At(groups[id], d, k, zone) && RulesAccepted(groups[id], d.specs[k])
  }

  ghost function PolicyTodo(groups: Groups, d: Desired): set<(nat, string)> {
    set k: nat, zone | 0 <= k < |d.specs| && zone in d.zones && !PolicyDone(groups, d, k, zone) :: (k, zone)
  }

  ghost function RulesTodo(groups: Groups, d: Desired): set<(nat, string)> {
    set k: nat, zone | 0 <= k < |d.specs| && zone in d.zones && !RulesDone(groups, d, k, zone) :: (k, zone)
  }

  /** Stale groups, plus the group and zone pairs whose policies are missing or
      wrong, plus those whose rules are. */
  ghost function Work(groups: Groups, d: Desired): nat {
    |Stale(groups, d)| + |PolicyTodo(groups, d)| + |RulesTodo(groups, d)|
  }

  ghost function PairWork(groups: Groups, d: Desired, k: nat, zone: string): nat
    requires k < |d.specs|
  {
    (if PolicyDone(groups, d, k, zone) then 0 else 1) + (if RulesDone(groups, d, k, zone) then 0 else 1)
  }

  ghost predicate AllCanonical(spec: GroupSpec) {
    && (forall i | 0 <= i < |RulesOf(spec.inbound)| :: CanonicalRange(RulesOf(spec.inbound)[i]))
    && (forall i | 0 <= i < |RulesOf(spec.outbound)| :: CanonicalRange(RulesOf(spec.outbound)[i]))
  }

  /** Nothing changed but the groups of one pair. */
  ghost predicate ChangedOnlyAt(before: Groups, after: Groups, d: Desired, k: nat, zone: string)
    requires k < |d.specs|
  {
    && (forall id | id in before && !At(before[id], d, k, zone) :: id in after && after[id] == before[id])
    && (forall id | id in after && !At(after[id], d, k, zone) :: id in before && before[id] == after[id])
  }

  lemma OtherPairsAreApart(g: Group, d: Desired, k: nat, zone: string, k': nat, zone': string)
    requires WellPosed(d) && k < |d.specs| && k' < |d.specs|
    requires At(g, d, k, zone) && At(g, d, k', zone')
    ensures k == k' && zone == zone'
  {
    SecurityGroupNamesAreInjective(d.cluster, d.specs[k].name, d.specs[k'].name);
  }

  lemma OtherPairsKeep(before: Groups, after: Groups, d: Desired, k: nat, zone: string, k': nat, zone': string)
    requires WellPosed(d) && k < |d.specs| && k' < |d.specs| && (k, zone) != (k', zone')
    requires ChangedOnlyAt(before, after, d, k, zone)
    ensures forall id | id in before && At(before[id], d, k', zone') :: id in after && after[id] == before[id]
    ensures forall id | id in after && At(after[id], d, k', zone') :: id in before && before[id] == after[id]
  {
    forall id | id in before && At(before[id], d, k', zone') ensures id in after && after[id] == before[id] {
      if At(before[id], d, k, zone) { OtherPairsAreApart(before[id], d, k, zone, k', zone'); }
    }
    forall id | id in after && At(after[id], d, k', zone') ensures id in before && before[id] == after[id] {
      if At(after[id], d, k, zone) { OtherPairsAreApart(after[id], d, k, zone, k', zone'); }
    }
  }

  lemma OtherPairsKeepDone(before: Groups, after: Groups, d: Desired, k: nat, zone: string, k': nat, zone': string)
    requires WellPosed(d) && k < |d.specs| && k' < |d.specs| && (k, zone) != (k', zone')
    requires ChangedOnlyAt(before, after, d, k, zone)
    ensures PolicyDone(before, d, k', zone') == PolicyDone(after, d, k', zone')
    ensures RulesDone(before, d, k', zone') == RulesDone(after, d, k', zone')
  {
    hide PoliciesRight, RulesAccepted;
    OtherPairsKeep(before, after, d, k, zone, k', zone');
  }

  lemma OneElementApart<T>(s: set<T>, t: set<T>, x: T)
    requires s - {x} == t - {x}
    ensures |s| - (if x in s then 1 else 0) == |t| - (if x in t then 1 else 0)
  {
    assert |s - {x}| == |s| - (if x in s then 1 else 0);
    assert |t - {x}| == |t| - (if x in t then 1 else 0);
  }

  /** Work on one pair changes the total by what it changes for the pair. */
  lemma PairWorkIsLocal(before: Groups, after: Groups, d: Desired, k: nat, zone: string)
    requires WellPosed(d) && k < |d.specs| && zone in d.zones
    requires ChangedOnlyAt(before, after, d, k, zone)
    ensures Work(after, d) - PairWork(after, d, k, zone) == Work(before, d) - PairWork(before, d, k, zone)
  {
    assert Stale(after, d) == Stale(before, d);
    hide PolicyDone, RulesDone, ChangedOnlyAt;
    forall k': nat, zone' | k' < |d.specs| && zone' in d.zones && (k', zone') != (k, zone)
      ensures PolicyDone(before, d, k', zone') == PolicyDone(after, d, k', zone')
      ensures RulesDone(before, d, k', zone') == RulesDone(after, d, k', zone')
    {
      OtherPairsKeepDone(before, after, d, k, zone, k', zone');
    }
    assert PolicyTodo(before, d) - {(k, zone)} == PolicyTodo(after, d) - {(k, zone)};
    assert RulesTodo(before, d) - {(k, zone)} == RulesTodo(after, d) - {(k, zone)};
    OneElementApart(PolicyTodo(before, d), PolicyTodo(after, d), (k, zone));
    OneElementApart(RulesTodo(before, d), RulesTodo(after, d), (k, zone));
  }

  /** Deleting stale groups reduces the work by their number. */
  lemma DeletingStaleIsWork(before: Groups, after: Groups, gone: set<nat>, d: Desired)
    requires gone <= Stale(before, d) && after == before - gone
    ensures Work(after, d) + |gone| == Work(before, d)
  {
    hide PolicyDone, RulesDone, Wanted, Own, At;
    assert Stale(after, d) == Stale(before, d) - gone;
    assert |Stale(before, d) - gone| == |Stale(before, d)| - |gone|;
    hide Stale;
    forall k: nat, zone | k < |d.specs| && zone in d.zones
      ensures PolicyDone(before, d, k, zone) == PolicyDone(after, d, k, zone)
      ensures RulesDone(before, d, k, zone) == RulesDone(after, d, k, zone)
    {
      StaleIsAtNoPair(before, after, gone, d, k, zone);
    }
    assert PolicyTodo(before, d) == PolicyTodo(after, d);
    assert RulesTodo(before, d) == RulesTodo(after, d);
  }

  lemma StaleIsAtNoPair(before: Groups, after: Groups, gone: set<nat>, d: Desired, k: nat, zone: string)
    requires k < |d.specs| && gone <= Stale(before, d) && after == before - gone
    ensures PolicyDone(before, d, k, zone) == PolicyDone(after, d, k, zone)
    ensures RulesDone(before, d, k, zone) == RulesDone(after, d, k, zone)
  {
    hide PoliciesRight, RulesAccepted;
    forall id | id in before && At(before[id], d, k, zone) ensures id in after && after[id] == before[id] {
      assert NameOf(d, k) == before[id].name;
    }
  }

  /** No work left and no duplicates: everything is as desired. */
  lemma NoWorkMeansConverged(groups: Groups, d: Desired)
    requires NoDuplicates(groups, d) && Work(groups, d) == 0
    ensures Converged(groups, d)
    ensures forall k: nat, zone | k < |d.specs| && zone in d.zones :: PairWork(groups, d, k, zone) == 0
  {
    forall id | id in groups && Own(groups[id], d) ensures Wanted(groups[id], d) {
      assert id !in Stale(groups, d);
    }
    forall k: nat, zone | k < |d.specs| && zone in d.zones
      ensures Settled(groups, d, k, zone) && PairWork(groups, d, k, zone) == 0
    {
      assert (k, zone) !in PolicyTodo(groups, d) && (k, zone) !in RulesTodo(groups, d);
      var i :| i in groups && At(groups[i], d, k, zone) && PoliciesRight(groups[i], d.specs[k]);
      var j :| j in groups && At(groups[j], d, k, zone) && RulesAccepted(groups[j], d.specs[k]);
      assert i == j;
    }
  }

  // ---- The cloud's API ----

  predicate RulesMasked(rules: seq<Rule>) {
    forall i | 0 <= i < |rules| :: Masked(rules[i].net)
  }

  class GroupCloud {
    var groups: Groups
    var nextId: nat
    // Write requests sent, those that took effect, and all requests that did not succeed.
    ghost var issued: nat
    ghost var applied: nat
    ghost var failures: nat

    /** IDs are fresh, and the cloud stores networks: no bit behind a prefix. */
    ghost predicate Valid()
      reads this
    {
      forall id | id in groups :: id < nextId && RulesMasked(groups[id].rules)
    }

    /** The effect of one write request under its three outcomes. */
    twostate predicate Wrote(new wanted: Groups, ok: bool)
      reads this
    {
      && issued == old(issued) + 1 && failures == old(failures) + (if ok then 0 else 1)
      && ((groups == wanted && applied == old(applied) + 1)
          || (!ok && groups == old(groups) && applied == old(applied)))
    }

    /** Lists the groups with the cluster's tag in the given zones, in any order. */
    method List(d: Desired) returns (r: Result<seq<Listed>, Failure>)
      modifies this`failures
      ensures r.Ok? ==> IsListing(r.value, groups, d)
      ensures r.Err? ==> r.error == ApiFailure
      ensures failures == old(failures) + (if r.Ok? then 0 else 1)
    {
      var reply: Outcome := *;
      if reply != Success {
        failures := failures + 1;
        return Err(ApiFailure);
      }
      var listing: seq<Listed> := [];
      var todo := groups.Keys;
      while todo != {}
        invariant todo <= groups.Keys
        invariant forall i | 0 <= i < |listing| :: listing[i].id in groups && listing[i].id !in todo
        invariant IsListingExcept(listing, groups, todo, d)
        decreases todo
      {
        var id :| id in todo;
        todo := todo - {id};
        if Own(groups[id], d) {
          listing := listing + [Listed(id, groups[id])];
        }
      }
      r := Ok(listing);
    }

    method ListRules(id: nat) returns (r: Result<seq<Rule>, Failure>)
      requires id in groups
      modifies this`failures
      ensures r.Ok? ==> r.value == groups[id].rules
      ensures r.Err? ==> r.error == ApiFailure
      ensures failures == old(failures) + (if r.Ok? then 0 else 1)
    {
      var reply: Outcome := *;
      if reply != Success {
        failures := failures + 1;
      }
      r := if reply == Success then Ok(groups[id].rules) else Err(ApiFailure);
    }

    method Delete(id: nat) returns (r: Result<(), Failure>)
      requires Valid() && id in groups
      modifies this
      ensures Valid()
      ensures Wrote(old(groups) - {id}, r.Ok?)
      ensures r.Err? ==> r.error == ApiFailure
    {
      var outcome: Outcome := *;
      issued := issued + 1;
      if outcome != Success {
        failures := failures + 1;
      }
      if outcome != NoEffect {
        groups, applied := groups - {id}, applied + 1;
      }
      r := if outcome == Success then Ok(()) else Err(ApiFailure);
    }

    method Create(group: Group) returns (r: Result<Listed, Failure>)
      requires Valid() && RulesMasked(group.rules)
      modifies this
      ensures Valid()
      ensures old(nextId) !in old(groups)
      ensures Wrote(old(groups)[old(nextId) := group], r.Ok?)
      ensures r.Ok? ==> r.value == Listed(old(nextId), group)
      ensures r.Err? ==> r.error == ApiFailure
    {
      var outcome: Outcome := *;
      issued := issued + 1;
      if outcome != Success {
        failures := failures + 1;
      }
      var id := nextId;
      if outcome != NoEffect {
        groups, nextId, applied := groups[id := group], nextId + 1, applied + 1;
      }
      r := if outcome == Success then Ok(Listed(id, group)) else Err(ApiFailure);
    }

    /** Sets the default policies and switches default security off. */
    method Update(id: nat, inbound: Action, outbound: Action) returns (r: Result<(), Failure>)
      requires Valid() && id in groups
      modifies this
      ensures Valid()
      ensures Wrote(old(groups)[id :=
                old(groups)[id].(inbound := inbound, outbound := outbound, defaultSecurity := false)], r.Ok?)
      ensures r.Err? ==> r.error == ApiFailure
    {
      var outcome: Outcome := *;
      issued := issued + 1;
      if outcome != Success {
        failures := failures + 1;
      }
      if outcome != NoEffect {
        groups, applied :=
            groups[id := groups[id].(inbound := inbound, outbound := outbound, defaultSecurity := false)], applied + 1;
      }
      r := if outcome == Success then Ok(()) else Err(ApiFailure);
    }

    /** Replaces all rules of a group. */
    method SetRules(id: nat, rules: seq<Rule>) returns (r: Result<(), Failure>)
      requires Valid() && id in groups && RulesMasked(rules)
      modifies this
      ensures Valid()
      ensures Wrote(old(groups)[id := old(groups)[id].(rules := rules)], r.Ok?)
      ensures r.Err? ==> r.error == ApiFailure
    {
      var outcome: Outcome := *;
      issued := issued + 1;
      if outcome != Success {
        failures := failures + 1;
      }
      if outcome != NoEffect {
        groups, applied := groups[id := groups[id].(rules := rules)], applied + 1;
      }
      r := if outcome == Success then Ok(()) else Err(ApiFailure);
    }
  }

  ghost predicate IsListingExcept(listing: seq<Listed>, groups: Groups, except: set<nat>, d: Desired) {
    && (forall i, j | 0 <= i < j < |listing| :: listing[i].id != listing[j].id)
    && (forall i | 0 <= i < |listing| ::
        listing[i].id in groups && groups[listing[i].id] == listing[i].group && Own(listing[i].group, d))
    && (forall id | id in groups && id !in except && Own(groups[id], d) :: Listed(id, groups[id]) in listing)
  }

  ghost predicate IsListing(listing: seq<Listed>, groups: Groups, d: Desired) {
    IsListingExcept(listing, groups, {}, d)
  }

  // ---- The pass ----

  lemma {:induction false} InDirectionConcat(a: seq<Rule>, b: seq<Rule>, direction: Direction)
    ensures InDirection(a + b, direction) == InDirection(a, direction) + InDirection(b, direction)
  {
    if a == [] {
      assert a + b == b;
    } else {
      assert (a + b)[1..] == a[1..] + b;
      InDirectionConcat(a[1..], b, direction);
    }
  }

  lemma {:induction false} InDirectionOfUniform(rules: seq<Rule>, own: Direction, direction: Direction)
    requires forall i | 0 <= i < |rules| :: rules[i].direction == own
    ensures InDirection(rules, direction) == if own == direction then rules else []
  {
    if rules != [] {
      InDirectionOfUniform(rules[1..], own, direction);
    }
  }

  /** The switch that sorts the listed rules by direction. */
  method SplitByDirection(rules: seq<Rule>) returns (inbound: seq<Rule>, outbound: seq<Rule>)
    ensures inbound == InDirection(rules, Inbound) && outbound == InDirection(rules, Outbound)
  {
    inbound, outbound := [], [];
    for i := 0 to |rules|
      invariant inbound == InDirection(rules[..i], Inbound)
      invariant outbound == InDirection(rules[..i], Outbound)
    {
      match rules[i].direction {
        case Inbound => inbound := inbound + [rules[i]];
        case Outbound => outbound := outbound + [rules[i]];
      }
      assert rules[..i + 1] == rules[..i] + [rules[i]];
      InDirectionConcat(rules[..i], [rules[i]], Inbound);
      InDirectionConcat(rules[..i], [rules[i]], Outbound);
    }
    assert rules[..|rules|] == rules;
  }

  lemma CompiledHasDirection(rules: seq<SpecRule>, direction: Direction, out: seq<Rule>)
    requires CompilesTo(rules, direction, out)
    ensures forall i | 0 <= i < |out| :: out[i].direction == direction
  {
    forall i | 0 <= i < |out| ensures out[i].direction == direction {
      assert CompileRule(ToUint32(i + 1), rules[i], direction) == Ok(out[i]);
    }
  }

  /** What is compiled can be stored. */
  lemma CompiledIsMasked(rules: seq<SpecRule>, direction: Direction, out: seq<Rule>)
    requires CompilesTo(rules, direction, out)
    ensures RulesMasked(out)
  {
    hide ToRange, ToUint32;
    forall i | 0 <= i < |out| ensures Masked(out[i].net) {
      assert CompileRule(ToUint32(i + 1), rules[i], direction) == Ok(out[i]);
      ParsedIsMasked(RangeText(rules[i]));
    }
  }

  lemma ParsedIsMasked(text: string)
    ensures ParseCIDR(text).Some? ==> Masked(ParseCIDR(text).value.net)
  {
    hide ParseAddr, ParseLength;
    var p := ParseCIDR(text);
    if p.Some? {
      MaskingKeepsMembers(p.value.addr, p.value.net.len, p.value.addr);
    }
  }

  lemma CompiledListsAreSeparable(spec: GroupSpec, inbound: seq<Rule>, outbound: seq<Rule>)
    requires CompilesTo(RulesOf(spec.inbound), Inbound, inbound)
    requires CompilesTo(RulesOf(spec.outbound), Outbound, outbound)
    ensures InDirection(inbound + outbound, Inbound) == inbound
    ensures InDirection(inbound + outbound, Outbound) == outbound
  {
    CompiledHasDirection(RulesOf(spec.inbound), Inbound, inbound);
    CompiledHasDirection(RulesOf(spec.outbound), Outbound, outbound);
    hide CompilesTo, RulesOf;
    InDirectionConcat(inbound, outbound, Inbound);
    InDirectionConcat(inbound, outbound, Outbound);
    InDirectionOfUniform(inbound, Inbound, Inbound);
    InDirectionOfUniform(outbound, Outbound, Inbound);
    InDirectionOfUniform(inbound, Inbound, Outbound);
    InDirectionOfUniform(outbound, Outbound, Outbound);
  }

  /** The snapshot still tells the truth about one pair. */
  ghost predicate CurrentAt(snapshot: seq<Listed>, groups: Groups, d: Desired, k: nat, zone: string)
    requires k < |d.specs|
  {
    && (forall i | 0 <= i < |snapshot| && At(snapshot[i].group, d, k, zone) ::
          snapshot[i].id in groups && groups[snapshot[i].id] == snapshot[i].group)
    && (forall id | id in groups && At(groups[id], d, k, zone) :: Listed(id, groups[id]) in snapshot)
  }

  lemma TheGroupDecides(groups: Groups, d: Desired, k: nat, zone: string, id: nat)
    requires k < |d.specs| && NoDuplicates(groups, d)
    requires id in groups && At(groups[id], d, k, zone)
    ensures PolicyDone(groups, d, k, zone) <==> PoliciesRight(groups[id], d.specs[k])
    ensures RulesDone(groups, d, k, zone) <==> RulesAccepted(groups[id], d.specs[k])
  {
    hide PoliciesRight, RulesAccepted;
  }

  method FindGroup(snapshot: seq<Listed>, d: Desired, k: nat, zone: string) returns (i: int)
    requires k < |d.specs|
    requires forall j | 0 <= j < |snapshot| :: Own(snapshot[j].group, d)
    ensures -1 <= i < |snapshot|
    ensures i >= 0 ==> At(snapshot[i].group, d, k, zone)
    ensures i == -1 ==> forall j | 0 <= j < |snapshot| :: !At(snapshot[j].group, d, k, zone)
  {
    for j := 0 to |snapshot|
      invariant forall t | 0 <= t < j :: !At(snapshot[t].group, d, k, zone)
    {
      if snapshot[j].group.name == NameOf(d, k) && snapshot[j].group.zone == zone {
        return j;
      }
    }
    i := -1;
  }

  /** Finds the group of a pair in the snapshot, creates it when missing, and
      updates it when its policies differ. */
  method EnsurePolicies(cloud: GroupCloud, d: Desired, k: nat, zone: string, snapshot: seq<Listed>)
      returns (r: Result<nat, Failure>)
    requires cloud.Valid() && WellPosed(d) && k < |d.specs| && zone in d.zones && NoDuplicates(cloud.groups, d)
    requires forall j | 0 <= j < |snapshot| :: Own(snapshot[j].group, d)
    requires CurrentAt(snapshot, cloud.groups, d, k, zone)
    modifies cloud
    ensures cloud.Valid() && NoDuplicates(cloud.groups, d)
    ensures ChangedOnlyAt(old(cloud.groups), cloud.groups, d, k, zone)
    ensures r.Ok? ==>
              r.value in cloud.groups && At(cloud.groups[r.value], d, k, zone)
              && PoliciesRight(cloud.groups[r.value], d.specs[k])
    ensures cloud.applied - old(cloud.applied) + PairWork(cloud.groups, d, k, zone) <=
              PairWork(old(cloud.groups), d, k, zone)
    ensures PolicyDone(old(cloud.groups), d, k, zone) ==>
              cloud.issued == old(cloud.issued) && cloud.groups == old(cloud.groups)
    ensures r.Ok? && !PolicyDone(old(cloud.groups), d, k, zone) ==> cloud.issued > old(cloud.issued)
    ensures cloud.issued > old(cloud.issued) || (cloud.issued == old(cloud.issued) && cloud.groups == old(cloud.groups))
    ensures r.Err? && r.error != ApiFailure ==>
              !ConversionsSucceed(d.specs[k].inbound) || !ConversionsSucceed(d.specs[k].outbound)
    ensures StatefulUnlessBefore(old(cloud.groups), cloud.groups)
    ensures cloud.failures >= old(cloud.failures) + (if r == Err(ApiFailure) then 1 else 0)
  {
    Unchanged(cloud.groups, d);
    hide RulesAccepted, ToInstancePolicy, CurrentAt, StatefulUnlessBefore, OthersUntouched, OtherClustersKeep;
    var spec := d.specs[k];
    var i := FindGroup(snapshot, d, k, zone);
    var inbound := DefaultPolicy(spec.inbound);
    if inbound.Err? {
      return Err(RuleFailure(inbound.error));
    }
    var outbound := DefaultPolicy(spec.outbound);
    if outbound.Err? {
      return Err(RuleFailure(outbound.error));
    }
    ghost var before := cloud.groups;
    if i == -1 {
      assert forall id | id in before :: !At(before[id], d, k, zone) by {
        NothingListedNothingThere(snapshot, before, d, k, zone);
      }
      var group := Group(zone, NameOf(d, k), ClusterTag(d.cluster), inbound.value, outbound.value, false, true, []);
      var created := cloud.Create(group);
      CreatingIsWork(before, cloud.groups, d, k, zone, old(cloud.nextId), group);
      if created.Err? {
        return Err(created.error);
      }
      return Ok(created.value.id);
    }
    var listed := snapshot[i];
    assert listed.id in before && before[listed.id] == listed.group by {
      ListedIsThere(snapshot, before, d, k, zone, i);
    }
    TheGroupDecides(before, d, k, zone, listed.id);
    if listed.group.inbound != inbound.value || listed.group.outbound != outbound.value
        || listed.group.defaultSecurity {
      var updated := cloud.Update(listed.id, inbound.value, outbound.value);
      if cloud.groups != before {
        UpdatingIsWork(before, cloud.groups, d, k, zone, listed.id);
      }
      if updated.Err? {
        return Err(updated.error);
      }
    }
    r := Ok(listed.id);
  }

  lemma ListedIsThere(snapshot: seq<Listed>, groups: Groups, d: Desired, k: nat, zone: string, i: nat)
    requires k < |d.specs| && CurrentAt(snapshot, groups, d, k, zone)
    requires i < |snapshot| && At(snapshot[i].group, d, k, zone)
    ensures snapshot[i].id in groups && groups[snapshot[i].id] == snapshot[i].group
  {
  }

  lemma NothingListedNothingThere(snapshot: seq<Listed>, groups: Groups, d: Desired, k: nat, zone: string)
    requires k < |d.specs| && CurrentAt(snapshot, groups, d, k, zone)
    requires forall j | 0 <= j < |snapshot| :: !At(snapshot[j].group, d, k, zone)
    ensures forall id | id in groups :: !At(groups[id], d, k, zone)
  {
    forall id | id in groups && Listed(id, groups[id]) in snapshot ensures !At(groups[id], d, k, zone) {
      var j :| 0 <= j < |snapshot| && snapshot[j] == Listed(id, groups[id]);
    }
  }

  /** A created group takes one unit of work off its pair at least. */
  lemma CreatingIsWork(before: Groups, after: Groups, d: Desired, k: nat, zone: string, id: nat, group: Group)
    requires k < |d.specs| && NoDuplicates(before, d) && id !in before
    requires forall i | i in before :: !At(before[i], d, k, zone)
    requires At(group, d, k, zone) && PoliciesRight(group, d.specs[k]) && group.stateful
    requires after == before || after == before[id := group]
    ensures NoDuplicates(after, d) && ChangedOnlyAt(before, after, d, k, zone) && StatefulUnlessBefore(before, after)
    ensures PairWork(before, d, k, zone) == 2
    ensures after != before ==> PairWork(after, d, k, zone) <= 1
  {
    hide PoliciesRight, RulesAccepted;
    if after != before {
      assert after[id] == group;
      TheGroupDecides(after, d, k, zone, id);
    }
  }

  lemma UpdatingIsWork(before: Groups, after: Groups, d: Desired, k: nat, zone: string, id: nat)
    requires k < |d.specs| && NoDuplicates(before, d) && id in before && At(before[id], d, k, zone)
    requires !PoliciesRight(before[id], d.specs[k])
    requires id in after && after == before[id := after[id]]
    requires after[id] ==
              before[id].(inbound := after[id].inbound, outbound := after[id].outbound, defaultSecurity := false)
    requires PoliciesRight(after[id], d.specs[k])
    ensures NoDuplicates(after, d) && ChangedOnlyAt(before, after, d, k, zone) && StatefulUnlessBefore(before, after)
    ensures PairWork(after, d, k, zone) + 1 == PairWork(before, d, k, zone)
  {
    assert RulesAccepted(before[id], d.specs[k]) == RulesAccepted(after[id], d.specs[k]);
    hide PoliciesRight, RulesAccepted;
    TheGroupDecides(before, d, k, zone, id);
    TheGroupDecides(after, d, k, zone, id);
  }

  lemma SettingRulesIsWork(before: Groups, after: Groups, d: Desired, k: nat, zone: string, id: nat, rules: seq<Rule>)
    requires k < |d.specs| && NoDuplicates(before, d) && id in before && At(before[id], d, k, zone)
    requires PoliciesRight(before[id], d.specs[k]) && !RulesAccepted(before[id], d.specs[k])
    requires after == before[id := before[id].(rules := rules)]
    ensures NoDuplicates(after, d) && ChangedOnlyAt(before, after, d, k, zone) && StatefulUnlessBefore(before, after)
    ensures PoliciesRight(after[id], d.specs[k])
    ensures PairWork(before, d, k, zone) == 1
    ensures PairWork(after, d, k, zone) == (if RulesAccepted(after[id], d.specs[k]) then 0 else 1)
  {
    assert PoliciesRight(after[id], d.specs[k]);
    hide PoliciesRight, RulesAccepted;
    TheGroupDecides(before, d, k, zone, id);
    TheGroupDecides(after, d, k, zone, id);
  }

  lemma CompiledIsAcceptedWhenCanonical(g: Group, spec: GroupSpec)
    requires RulesCompiled(g, spec)
    ensures RulesAccepted(g, spec) <==> AllCanonical(spec)
  {
    hide CompilesTo, AllSame, RulesOf, CanonicalRange;
    StoredRulesCompareEqualIffCanonical(RulesOf(spec.inbound), Inbound, InDirection(g.rules, Inbound));
    StoredRulesCompareEqualIffCanonical(RulesOf(spec.outbound), Outbound, InDirection(g.rules, Outbound));
  }

  /** Compares the stored rules of a group with the declared ones and replaces
      them when the comparison says they differ. */
  method EnsureRules(cloud: GroupCloud, d: Desired, k: nat, zone: string, id: nat) returns (r: Result<(), Failure>)
    requires cloud.Valid() && WellPosed(d) && k < |d.specs| && zone in d.zones && NoDuplicates(cloud.groups, d)
    requires id in cloud.groups && At(cloud.groups[id], d, k, zone) && PoliciesRight(cloud.groups[id], d.specs[k])
    modifies cloud
    ensures cloud.Valid() && NoDuplicates(cloud.groups, d)
    ensures ChangedOnlyAt(old(cloud.groups), cloud.groups, d, k, zone)
    ensures r.Ok? ==> Settled(cloud.groups, d, k, zone)
    ensures AllCanonical(d.specs[k]) ==>
              cloud.applied - old(cloud.applied) + PairWork(cloud.groups, d, k, zone) <=
              PairWork(old(cloud.groups), d, k, zone)
    ensures AllCanonical(d.specs[k]) && r.Ok? ==> PairWork(cloud.groups, d, k, zone) == 0
    ensures RulesDone(old(cloud.groups), d, k, zone) ==>
              cloud.issued == old(cloud.issued) && cloud.groups == old(cloud.groups)
    ensures r.Ok? && !RulesDone(old(cloud.groups), d, k, zone) ==> cloud.issued > old(cloud.issued)
    ensures cloud.issued > old(cloud.issued) || (cloud.issued == old(cloud.issued) && cloud.groups == old(cloud.groups))
    ensures r.Err? && r.error != ApiFailure ==>
              !ConversionsSucceed(d.specs[k].inbound) || !ConversionsSucceed(d.specs[k].outbound)
    ensures StatefulUnlessBefore(old(cloud.groups), cloud.groups)
    ensures cloud.failures >= old(cloud.failures) + (if r == Err(ApiFailure) then 1 else 0)
  {
    Unchanged(cloud.groups, d);
    hide PoliciesRight, AllSame, CompilesTo, RuleNeverFails, CompareRule, CompileRule, StatefulUnlessBefore,
      OthersUntouched, OtherClustersKeep, ConversionsSucceed, AllCanonical, ChangedOnlyAt;
    var spec := d.specs[k];
    ghost var before := cloud.groups;
    TheGroupDecides(before, d, k, zone, id);
    var listed := cloud.ListRules(id);
    if listed.Err? {
      return Err(listed.error);
    }
    var instanceInbound, instanceOutbound := SplitByDirection(listed.value);
    var inboundRules, outboundRules := RulesOf(spec.inbound), RulesOf(spec.outbound);
    var compareInbound := CompareRules(inboundRules, instanceInbound);
    if compareInbound.Err? {
      ComparisonNeedsBadRule(spec.inbound, instanceInbound);
      return Err(RuleFailure(compareInbound.error));
    }
    var compareOutbound := CompareRules(outboundRules, instanceOutbound);
    if compareOutbound.Err? {
      ComparisonNeedsBadRule(spec.outbound, instanceOutbound);
      return Err(RuleFailure(compareOutbound.error));
    }
    if !compareInbound.value || !compareOutbound.value {
      assert !RulesAccepted(before[id], spec);
      var replaced := ReplaceRules(cloud, d, k, zone, id);
      return replaced;
    }
    r := Ok(());
  }

  /** Compiles both rule lists and stores them. */
  method ReplaceRules(cloud: GroupCloud, d: Desired, k: nat, zone: string, id: nat) returns (r: Result<(), Failure>)
    requires cloud.Valid() && k < |d.specs| && zone in d.zones && NoDuplicates(cloud.groups, d)
    requires id in cloud.groups && At(cloud.groups[id], d, k, zone) && PoliciesRight(cloud.groups[id], d.specs[k])
    requires !RulesAccepted(cloud.groups[id], d.specs[k])
    modifies cloud
    ensures cloud.Valid() && NoDuplicates(cloud.groups, d)
    ensures ChangedOnlyAt(old(cloud.groups), cloud.groups, d, k, zone)
    ensures r.Ok? ==> Settled(cloud.groups, d, k, zone)
    ensures AllCanonical(d.specs[k]) ==>
              cloud.applied - old(cloud.applied) + PairWork(cloud.groups, d, k, zone) <=
              PairWork(old(cloud.groups), d, k, zone)
    ensures AllCanonical(d.specs[k]) && r.Ok? ==> PairWork(cloud.groups, d, k, zone) == 0
    ensures r.Ok? ==> cloud.issued > old(cloud.issued)
    ensures cloud.issued > old(cloud.issued) || (cloud.issued == old(cloud.issued) && cloud.groups == old(cloud.groups))
    ensures r.Err? && r.error != ApiFailure ==>
              !ConversionsSucceed(d.specs[k].inbound) || !ConversionsSucceed(d.specs[k].outbound)
    ensures StatefulUnlessBefore(old(cloud.groups), cloud.groups)
    ensures cloud.failures >= old(cloud.failures) + (if r == Err(ApiFailure) then 1 else 0)
  {
    Unchanged(cloud.groups, d);
    hide PoliciesRight, RulesAccepted, CompilesTo, RuleNeverFails, CompileRule, ConversionsSucceed,
      StatefulUnlessBefore, OthersUntouched, OtherClustersKeep, WellWritten;
    var spec := d.specs[k];
    ghost var before := cloud.groups;
    var newInbound := CompileRules(RulesOf(spec.inbound), Inbound);
    if newInbound.Err? {
      CompilationNeedsBadRule(spec.inbound, Inbound);
      return Err(RuleFailure(newInbound.error));
    }
    var newOutbound := CompileRules(RulesOf(spec.outbound), Outbound);
    if newOutbound.Err? {
      CompilationNeedsBadRule(spec.outbound, Outbound);
      return Err(RuleFailure(newOutbound.error));
    }
    CompiledIsMasked(RulesOf(spec.inbound), Inbound, newInbound.value);
    CompiledIsMasked(RulesOf(spec.outbound), Outbound, newOutbound.value);
    var rules := newInbound.value + newOutbound.value;
    var stored := cloud.SetRules(id, rules);
    if cloud.groups != before {
      SettingRulesIsWork(before, cloud.groups, d, k, zone, id, rules);
      CompiledListsAreSeparable(spec, newInbound.value, newOutbound.value);
      assert RulesCompiled(cloud.groups[id], spec);
      CompiledIsAcceptedWhenCanonical(cloud.groups[id], spec);
    } else if before[id].rules == rules {
      CompiledListsAreSeparable(spec, newInbound.value, newOutbound.value);
      CompiledIsAcceptedWhenCanonical(cloud.groups[id], spec);
    }
    if stored.Err? {
      return Err(stored.error);
    }
    r := Ok(());
  }

  lemma ComparisonNeedsBadRule(policy: Option<SpecPolicy>, stored: seq<Rule>)
    requires |RulesOf(policy)| == |stored| && exists i | 0 <= i < |stored| ::
              CompareRule(RulesOf(policy)[i], stored[i]).Err?
    ensures !ConversionsSucceed(policy)
  {
    hide CompareRule, CompileRule;
    var i :| 0 <= i < |stored| && CompareRule(RulesOf(policy)[i], stored[i]).Err?;
    assert !RuleNeverFails(RulesOf(policy)[i]);
  }

  lemma CompilationNeedsBadRule(policy: Option<SpecPolicy>, direction: Direction)
    requires exists i | 0 <= i < |RulesOf(policy)| :: CompileRule(ToUint32(i + 1), RulesOf(policy)[i], direction).Err?
    ensures !ConversionsSucceed(policy)
  {
    hide CompareRule, CompileRule;
    var i :| 0 <= i < |RulesOf(policy)| && CompileRule(ToUint32(i + 1), RulesOf(policy)[i], direction).Err?;
    assert !RuleNeverFails(RulesOf(policy)[i]);
  }

  /** One turn of the inner loop. */
  method EnsureGroup(cloud: GroupCloud, d: Desired, k: nat, zone: string, snapshot: seq<Listed>)
      returns (r: Result<(), Failure>)
    requires cloud.Valid() && WellPosed(d) && k < |d.specs| && zone in d.zones && NoDuplicates(cloud.groups, d)
    requires forall j | 0 <= j < |snapshot| :: Own(snapshot[j].group, d)
    requires CurrentAt(snapshot, cloud.groups, d, k, zone)
    modifies cloud
    ensures cloud.Valid() && NoDuplicates(cloud.groups, d)
    ensures ChangedOnlyAt(old(cloud.groups), cloud.groups, d, k, zone)
    ensures r.Ok? ==> Settled(cloud.groups, d, k, zone)
    ensures AllCanonical(d.specs[k]) ==>
              cloud.applied - old(cloud.applied) + PairWork(cloud.groups, d, k, zone) <=
              PairWork(old(cloud.groups), d, k, zone)
    ensures AllCanonical(d.specs[k]) && r.Ok? ==> PairWork(cloud.groups, d, k, zone) == 0
    ensures cloud.issued > old(cloud.issued) || (cloud.issued == old(cloud.issued) && cloud.groups == old(cloud.groups))
    ensures PairWork(old(cloud.groups), d, k, zone) == 0 ==> cloud.issued == old(cloud.issued)
    ensures r.Ok? && cloud.issued == old(cloud.issued) ==> PairWork(old(cloud.groups), d, k, zone) == 0
    ensures r.Err? && r.error != ApiFailure ==>
              !ConversionsSucceed(d.specs[k].inbound) || !ConversionsSucceed(d.specs[k].outbound)
    ensures StatefulUnlessBefore(old(cloud.groups), cloud.groups)
    ensures cloud.failures >= old(cloud.failures) + (if r == Err(ApiFailure) then 1 else 0)
  {
    hide PoliciesRight, RulesAccepted, CurrentAt, ConversionsSucceed, AllCanonical, NoDuplicates;
    var id := EnsurePolicies(cloud, d, k, zone, snapshot);
    if id.Err? {
      return Err(id.error);
    }
    r := EnsureRules(cloud, d, k, zone, id.value);
  }

  /** Removes the listed groups that no spec names. */
  method DeleteStale(cloud: GroupCloud, d: Desired, snapshot: seq<Listed>)
      returns (r: Result<(), Failure>, ghost gone: set<nat>)
    requires cloud.Valid() && IsListing(snapshot, cloud.groups, d)
    modifies cloud
    ensures cloud.Valid()
    ensures gone <= Stale(old(cloud.groups), d) && cloud.groups == old(cloud.groups) - gone
    ensures cloud.applied == old(cloud.applied) + |gone|
    ensures r.Ok? ==> gone == Stale(old(cloud.groups), d) && cloud.issued == old(cloud.issued) + |gone|
    ensures cloud.issued >= old(cloud.issued) + |gone|
    ensures cloud.issued > old(cloud.issued) ==> Stale(old(cloud.groups), d) != {}
    ensures r.Err? ==> r.error == ApiFailure
    ensures cloud.failures >= old(cloud.failures) + (if r == Err(ApiFailure) then 1 else 0)
  {
    hide Wanted, Stale, StaleBefore, IsListing;
    ghost var before := cloud.groups;
    gone := {};
    NothingStaleBefore(snapshot, d);
    for i := 0 to |snapshot|
      invariant cloud.Valid()
      invariant gone == StaleBefore(snapshot, d, i) && gone <= Stale(before, d) && cloud.groups == before - gone
      invariant cloud.applied == old(cloud.applied) + |gone|
      invariant cloud.issued == old(cloud.issued) + |gone|
      invariant cloud.failures >= old(cloud.failures)
    {
      var listed := snapshot[i];
      NextStale(snapshot, before, d, i);
      if !Wanted(listed.group, d) {
        OneMoreGone(before, gone, listed.id);
        var deleted := cloud.Delete(listed.id);
        if deleted.Err? {
          if cloud.groups != before - gone {
            gone := gone + {listed.id};
          }
          return Err(deleted.error), gone;
        }
        gone := gone + {listed.id};
      }
    }
    AllStaleAreListed(snapshot, before, d);
    r := Ok(());
  }

  /** The listed groups before position n that no spec names. */
  ghost function StaleBefore(snapshot: seq<Listed>, d: Desired, n: nat): set<nat>
    requires n <= |snapshot|
  {
    set j | 0 <= j < n && !Wanted(snapshot[j].group, d) :: snapshot[j].id
  }

  lemma NothingStaleBefore(snapshot: seq<Listed>, d: Desired)
    ensures StaleBefore(snapshot, d, 0) == {}
  {
  }

  lemma NextStale(snapshot: seq<Listed>, groups: Groups, d: Desired, n: nat)
    requires n < |snapshot| && IsListing(snapshot, groups, d)
    ensures var listed := snapshot[n];
            StaleBefore(snapshot, d, n + 1)
            == StaleBefore(snapshot, d, n) + (if Wanted(listed.group, d) then {} else {listed.id})
    ensures var listed := snapshot[n];
            && listed.id in groups && listed.id !in StaleBefore(snapshot, d, n)
            && (!Wanted(listed.group, d) ==> listed.id in Stale(groups, d))
  {
    hide Wanted, Own;
  }

  lemma OneMoreGone(before: Groups, gone: set<nat>, id: nat)
    requires id in before && id !in gone
    ensures before - gone - {id} == before - (gone + {id}) && id in before - gone
    ensures |gone + {id}| == |gone| + 1
    ensures before - gone - {id} != before - gone
  {
    assert id !in before - gone - {id};
  }

  lemma AllStaleAreListed(snapshot: seq<Listed>, groups: Groups, d: Desired)
    requires IsListing(snapshot, groups, d) && StaleBefore(snapshot, d, |snapshot|) <= Stale(groups, d)
    ensures StaleBefore(snapshot, d, |snapshot|) == Stale(groups, d)
  {
    hide Wanted, Own;
    forall id | id in Stale(groups, d) ensures id in StaleBefore(snapshot, d, |snapshot|) {
      var j :| 0 <= j < |snapshot| && snapshot[j] == Listed(id, groups[id]);
    }
  }

  /** What the pass makes is stateful, and it does not change that of what is there. */
  ghost predicate StatefulUnlessBefore(before: Groups, after: Groups) {
    forall id | id in after :: after[id].stateful || (id in before && !before[id].stateful)
  }

  /** The groups of every other cluster are there as before. */
  ghost predicate OtherClustersKeep(before: Groups, after: Groups, cluster: string) {
    forall id, other | id in before && other != cluster && before[id].tag == ClusterTag(other) ::
      id in after && after[id] == before[id]
  }

  lemma Unchanged(groups: Groups, d: Desired)
    ensures OthersUntouched(groups, groups, d) && OtherClustersKeep(groups, groups, d.cluster)
    ensures StatefulUnlessBefore(groups, groups)
    ensures forall k: nat, zone | k < |d.specs| :: ChangedOnlyAt(groups, groups, d, k, zone)
  {
  }

  lemma OthersAreOfOtherClusters(before: Groups, after: Groups, d: Desired)
    requires OthersUntouched(before, after, d)
    ensures OtherClustersKeep(before, after, d.cluster)
  {
    hide ClusterTag;
    forall id, other | id in before && other != d.cluster && before[id].tag == ClusterTag(other)
      ensures id in after && after[id] == before[id]
    {
      ClusterTagsAreTheirOwn(d.cluster, other);
    }
  }

  /** Groups that are not the cluster's own are left alone. */
  ghost predicate OthersUntouched(before: Groups, after: Groups, d: Desired) {
    && (forall id | id in before && !Own(before[id], d) :: id in after && after[id] == before[id])
    && (forall id | id in after && !Own(after[id], d) :: id in before && before[id] == after[id])
  }

  /** Spec k, zone number t comes before spec k', zone number t' in the pass. */
  predicate Before(k: int, t: int, k': int, t': int) {
    k < k' || (k == k' && t < t')
  }

  ghost predicate SnapshotCurrentFrom(snapshot: seq<Listed>, groups: Groups, d: Desired, k: nat, t: nat) {
    forall k', t' | 0 <= k' < |d.specs| && 0 <= t' < |d.zones| && !Before(k', t', k, t) ::
        CurrentAt(snapshot, groups, d, k', d.zones[t'])
  }

  ghost predicate SettledBefore(groups: Groups, d: Desired, k: nat, t: nat) {
    forall k', t' | 0 <= k' < |d.specs| && 0 <= t' < |d.zones| && Before(k', t', k, t) ::
        Settled(groups, d, k', d.zones[t'])
  }

  ghost predicate NoWorkBefore(groups: Groups, d: Desired, k: nat, t: nat) {
    forall k', t' | 0 <= k' < |d.specs| && 0 <= t' < |d.zones| && Before(k', t', k, t) ::
        PairWork(groups, d, k', d.zones[t']) == 0
  }

  ghost predicate RangesAreCanonical(d: Desired) {
    forall k | 0 <= k < |d.specs| :: AllCanonical(d.specs[k])
  }

  /** Working on one pair keeps the snapshot current for the later pairs and
      the earlier pairs settled. */
  lemma OneTurnKeepsTheRest(snapshot: seq<Listed>, before: Groups, after: Groups, d: Desired, k: nat, t: nat)
    requires WellPosed(d) && k < |d.specs| && t < |d.zones|
    requires ChangedOnlyAt(before, after, d, k, d.zones[t])
    ensures SnapshotCurrentFrom(snapshot, before, d, k, t) ==> SnapshotCurrentFrom(snapshot, after, d, k, t + 1)
    ensures SettledBefore(before, d, k, t) && Settled(after, d, k, d.zones[t]) ==> SettledBefore(after, d, k, t + 1)
    ensures NoWorkBefore(before, d, k, t) && PairWork(after, d, k, d.zones[t]) == 0 ==> NoWorkBefore(after, d, k, t + 1)
  {
    hide CurrentAt, Settled, PairWork;
    forall k': nat, t': nat | k' < |d.specs| && t' < |d.zones| && (k' != k || t' != t)
      ensures CurrentAt(snapshot, before, d, k', d.zones[t']) ==> CurrentAt(snapshot, after, d, k', d.zones[t'])
      ensures Settled(before, d, k', d.zones[t']) ==> Settled(after, d, k', d.zones[t'])
      ensures PairWork(before, d, k', d.zones[t']) == PairWork(after, d, k', d.zones[t'])
    {
      OtherPairKeepsAll(snapshot, before, after, d, k, d.zones[t], k', d.zones[t']);
    }
  }

  lemma OneTurnKeepsOthers(before: Groups, after: Groups, d: Desired, k: nat, zone: string)
    requires k < |d.specs| && zone in d.zones && ChangedOnlyAt(before, after, d, k, zone)
    ensures OthersUntouched(before, after, d) && Stale(after, d) == Stale(before, d)
  {
  }

  lemma OtherPairKeepsAll(snapshot: seq<Listed>, before: Groups, after: Groups, d: Desired, k: nat, zone: string,
      k': nat, zone': string)
    requires WellPosed(d) && k < |d.specs| && k' < |d.specs| && (k, zone) != (k', zone')
    requires ChangedOnlyAt(before, after, d, k, zone)
    ensures CurrentAt(snapshot, before, d, k', zone') ==> CurrentAt(snapshot, after, d, k', zone')
    ensures Settled(before, d, k', zone') ==> Settled(after, d, k', zone')
    ensures PairWork(before, d, k', zone') == PairWork(after, d, k', zone')
  {
    hide Right, PoliciesRight, RulesAccepted;
    OtherPairsKeep(before, after, d, k, zone, k', zone');
  }

  lemma UntouchedIsTransitive(a: Groups, b: Groups, c: Groups, d: Desired)
    requires OthersUntouched(a, b, d) && OthersUntouched(b, c, d)
    requires StatefulUnlessBefore(a, b) && StatefulUnlessBefore(b, c)
    ensures OthersUntouched(a, c, d) && StatefulUnlessBefore(a, c)
  {
    hide Own;
  }

  lemma AfterDeleting(snapshot: seq<Listed>, before: Groups, after: Groups, gone: set<nat>, d: Desired)
    requires IsListing(snapshot, before, d) && NoDuplicates(before, d)
    requires gone <= Stale(before, d) && after == before - gone
    ensures NoDuplicates(after, d) && OthersUntouched(before, after, d) && StatefulUnlessBefore(before, after)
    ensures Work(after, d) + |gone| == Work(before, d)
    ensures gone == Stale(before, d) ==> Stale(after, d) == {}
    ensures Work(before, d) == 0 ==> Stale(before, d) == {}
    ensures gone == {} ==> after == before
    ensures SnapshotCurrentFrom(snapshot, after, d, 0, 0)
  {
    DeletingStaleIsWork(before, after, gone, d);
    forall k: nat, t: nat | k < |d.specs| && t < |d.zones| ensures CurrentAt(snapshot, after, d, k, d.zones[t]) {
      forall id | id in before && At(before[id], d, k, d.zones[t]) ensures id !in gone && Own(before[id], d) {
        assert NameOf(d, k) == before[id].name;
      }
    }
  }

  lemma ThisTurnIsCurrent(snapshot: seq<Listed>, groups: Groups, d: Desired, k: nat, t: nat)
    requires k < |d.specs| && t < |d.zones| && SnapshotCurrentFrom(snapshot, groups, d, k, t)
    ensures CurrentAt(snapshot, groups, d, k, d.zones[t])
  {
  }

  /** The end of one row is the start of the next. */
  lemma NextRow(snapshot: seq<Listed>, groups: Groups, d: Desired, k: nat)
    requires k < |d.specs|
    ensures SnapshotCurrentFrom(snapshot, groups, d, k, |d.zones|) <==>
              SnapshotCurrentFrom(snapshot, groups, d, k + 1, 0)
    ensures SettledBefore(groups, d, k, |d.zones|) <==> SettledBefore(groups, d, k + 1, 0)
    ensures NoWorkBefore(groups, d, k, |d.zones|) <==> NoWorkBefore(groups, d, k + 1, 0)
  {
    hide CurrentAt, Settled, PairWork;
    assert forall k', t' | 0 <= t' < |d.zones| :: Before(k', t', k, |d.zones|) <==> Before(k', t', k + 1, 0);
  }

  lemma NothingBeforeTheStart(groups: Groups, d: Desired)
    ensures SettledBefore(groups, d, 0, 0) && NoWorkBefore(groups, d, 0, 0)
  {
  }

  lemma AllTurnsDone(groups: Groups, d: Desired)
    requires NoDuplicates(groups, d) && Stale(groups, d) == {}
    requires SettledBefore(groups, d, |d.specs|, 0)
    ensures Converged(groups, d)
  {
    hide Settled;
    forall id | id in groups && Own(groups[id], d) ensures Wanted(groups[id], d) {
      assert id !in Stale(groups, d);
    }
    forall k, zone | 0 <= k < |d.specs| && zone in d.zones ensures Settled(groups, d, k, zone) {
      var t :| 0 <= t < |d.zones| && d.zones[t] == zone;
      assert Before(k, t, |d.specs|, 0);
    }
  }

  lemma AllTurnsDoneNoWork(groups: Groups, d: Desired)
    requires Stale(groups, d) == {} && NoWorkBefore(groups, d, |d.specs|, 0)
    ensures Work(groups, d) == 0
  {
    hide PolicyDone, RulesDone;
    forall k: nat, zone | k < |d.specs| && zone in d.zones
        ensures PolicyDone(groups, d, k, zone) && RulesDone(groups, d, k, zone) {
      var t :| 0 <= t < |d.zones| && d.zones[t] == zone;
      assert Before(k, t, |d.specs|, 0);
      assert PairWork(groups, d, k, zone) == 0;
    }
    assert PolicyTodo(groups, d) == {} && RulesTodo(groups, d) == {};
  }

  /** The whole pass. Whatever its outcome, it touches nothing else, whichever
      cluster it belongs to, makes no duplicate, and (with canonical ranges) pays for every write that took
      effect with remaining work; on success everything is as desired. */
  method EnsureSecurityGroups(cloud: GroupCloud, d: Desired) returns (r: Result<(), Failure>)
    requires cloud.Valid() && WellPosed(d) && NoDuplicates(cloud.groups, d)
    modifies cloud
    ensures cloud.Valid() && NoDuplicates(cloud.groups, d)
    ensures OthersUntouched(old(cloud.groups), cloud.groups, d)
    ensures OtherClustersKeep(old(cloud.groups), cloud.groups, d.cluster)
    ensures r.Ok? ==> Converged(cloud.groups, d)
    ensures RangesAreCanonical(d) ==>
              cloud.applied - old(cloud.applied) + Work(cloud.groups, d) <= Work(old(cloud.groups), d)
    ensures RangesAreCanonical(d) && r.Ok? ==> Work(cloud.groups, d) == 0
    ensures Work(old(cloud.groups), d) == 0 ==> cloud.issued == old(cloud.issued) && cloud.groups == old(cloud.groups)
    ensures r.Ok? && cloud.issued == old(cloud.issued) ==> Work(old(cloud.groups), d) == 0
    ensures r.Err? && r.error != ApiFailure ==>
              exists k | 0 <= k < |d.specs| ::
                  !ConversionsSucceed(d.specs[k].inbound) || !ConversionsSucceed(d.specs[k].outbound)
    ensures StatefulUnlessBefore(old(cloud.groups), cloud.groups)
    ensures cloud.failures >= old(cloud.failures) + (if r == Err(ApiFailure) then 1 else 0)
  {
    hide AllCanonical, ConversionsSucceed, Own, At, NoDuplicates, Settled, CurrentAt, PairWork, Work,
      SnapshotCurrentFrom, SettledBefore, NoWorkBefore, Stale, OthersUntouched, OtherClustersKeep,
      StatefulUnlessBefore, Converged;
    Unchanged(cloud.groups, d);
    var listing := cloud.List(d);
    if listing.Err? {
      return Err(listing.error);
    }
    var snapshot := listing.value;
    ghost var before := cloud.groups;
    var deleted, gone := DeleteStale(cloud, d, snapshot);
    AfterDeleting(snapshot, before, cloud.groups, gone, d);
    OthersAreOfOtherClusters(before, cloud.groups, d);
    if deleted.Err? {
      return Err(deleted.error);
    }
    NothingBeforeTheStart(cloud.groups, d);
    for k := 0 to |d.specs|
      invariant cloud.Valid() && NoDuplicates(cloud.groups, d)
      invariant OthersUntouched(before, cloud.groups, d) && Stale(cloud.groups, d) == {}
      invariant StatefulUnlessBefore(before, cloud.groups) && cloud.failures >= old(cloud.failures)
      invariant SnapshotCurrentFrom(snapshot, cloud.groups, d, k, 0)
      invariant SettledBefore(cloud.groups, d, k, 0)
      invariant RangesAreCanonical(d) ==> NoWorkBefore(cloud.groups, d, k, 0)
      invariant RangesAreCanonical(d) ==> cloud.applied - old(cloud.applied) + Work(cloud.groups, d) <= Work(before, d)
      invariant cloud.issued >= old(cloud.issued)
      invariant cloud.issued == old(cloud.issued) ==> cloud.groups == before && NoWorkBefore(before, d, k, 0)
      invariant Work(before, d) == 0 ==> cloud.issued == old(cloud.issued)
    {
      for t := 0 to |d.zones|
        invariant cloud.Valid() && NoDuplicates(cloud.groups, d)
        invariant OthersUntouched(before, cloud.groups, d) && Stale(cloud.groups, d) == {}
        invariant StatefulUnlessBefore(before, cloud.groups) && cloud.failures >= old(cloud.failures)
        invariant SnapshotCurrentFrom(snapshot, cloud.groups, d, k, t)
        invariant SettledBefore(cloud.groups, d, k, t)
        invariant RangesAreCanonical(d) ==> NoWorkBefore(cloud.groups, d, k, t)
        invariant RangesAreCanonical(d) ==>
                  cloud.applied - old(cloud.applied) + Work(cloud.groups, d) <= Work(before, d)
        invariant cloud.issued >= old(cloud.issued)
        invariant cloud.issued == old(cloud.issued) ==> cloud.groups == before && NoWorkBefore(before, d, k, t)
        invariant Work(before, d) == 0 ==> cloud.issued == old(cloud.issued)
      {
        ghost var turn := cloud.groups;
        var zone := d.zones[t];
        assert CurrentAt(snapshot, turn, d, k, zone) by { ThisTurnIsCurrent(snapshot, turn, d, k, t); }
        assert Work(before, d) == 0 ==> PairWork(turn, d, k, zone) == 0 by {
          if Work(before, d) == 0 { NoWorkMeansConverged(before, d); }
        }
        r := EnsureGroup(cloud, d, k, zone, snapshot);
        PairWorkIsLocal(turn, cloud.groups, d, k, zone);
        OneTurnKeepsTheRest(snapshot, turn, cloud.groups, d, k, t);
        OneTurnKeepsOthers(turn, cloud.groups, d, k, zone);
        UntouchedIsTransitive(before, turn, cloud.groups, d);
        if r.Err? {
          OthersAreOfOtherClusters(before, cloud.groups, d);
          return r;
        }
      }
      NextRow(snapshot, cloud.groups, d, k);
    }
    OthersAreOfOtherClusters(before, cloud.groups, d);
    AllTurnsDone(cloud.groups, d);
    if cloud.issued == old(cloud.issued) { AllTurnsDoneNoWork(before, d); }
    if RangesAreCanonical(d) { AllTurnsDoneNoWork(cloud.groups, d); }
    r := Ok(());
  }

  // ---- Idempotence ----

  ghost predicate NetsAreMasked(groups: Groups, d: Desired) {
    forall id | id in groups && Own(groups[id], d) :: RulesMasked(groups[id].rules)
  }

  lemma {:induction false} InDirectionKeepsMasks(rules: seq<Rule>, direction: Direction)
    requires forall i | 0 <= i < |rules| :: Masked(rules[i].net)
    ensures forall i | 0 <= i < |InDirection(rules, direction)| :: Masked(InDirection(rules, direction)[i].net)
  {
    if rules != [] {
      InDirectionKeepsMasks(rules[1..], direction);
    }
  }

  lemma AcceptedMaskedIsCanonical(rules: seq<SpecRule>, stored: seq<Rule>)
    requires AllSame(rules, stored) && forall i | 0 <= i < |stored| :: Masked(stored[i].net)
    ensures forall i | 0 <= i < |rules| :: CanonicalRange(rules[i])
  {
    forall i | 0 <= i < |rules| ensures CanonicalRange(rules[i]) {
      assert CompareRule(rules[i], stored[i]) == Ok(true);
      PrintedMaskedIsCanonical(stored[i].net);
    }
  }

  lemma RightMaskedIsAcceptedIff(g: Group, spec: GroupSpec)
    requires RulesAccepted(g, spec) || RulesCompiled(g, spec)
    requires forall i | 0 <= i < |g.rules| :: Masked(g.rules[i].net)
    ensures RulesAccepted(g, spec) <==> AllCanonical(spec)
  {
    hide AllSame, CompilesTo, CanonicalRange, RulesOf;
    InDirectionKeepsMasks(g.rules, Inbound);
    InDirectionKeepsMasks(g.rules, Outbound);
    if RulesCompiled(g, spec) {
      CompiledIsAcceptedWhenCanonical(g, spec);
    } else {
      AcceptedMaskedIsCanonical(RulesOf(spec.inbound), InDirection(g.rules, Inbound));
      AcceptedMaskedIsCanonical(RulesOf(spec.outbound), InDirection(g.rules, Outbound));
    }
  }

  /** In the state a successful pass leaves, no work remains exactly when every
      range is canonical. With the pass's contract: a rerun sends no write at
      all in that case, and otherwise every successful rerun writes again. */
  lemma ConvergedIsQuietExactlyWhenCanonical(groups: Groups, d: Desired)
    requires WellPosed(d) && Converged(groups, d) && NetsAreMasked(groups, d) && |d.zones| > 0
    ensures Work(groups, d) == 0 <==> RangesAreCanonical(d)
  {
    hide PoliciesRight, RulesAccepted, RulesCompiled, AllCanonical;
    forall k: nat, zone | k < |d.specs| && zone in d.zones
      ensures PolicyDone(groups, d, k, zone)
      ensures RulesDone(groups, d, k, zone) <==> AllCanonical(d.specs[k])
    {
      assert Settled(groups, d, k, zone);
      var id :| id in groups && At(groups[id], d, k, zone) && Right(groups[id], d.specs[k]);
      TheGroupDecides(groups, d, k, zone, id);
      RightMaskedIsAcceptedIff(groups[id], d.specs[k]);
    }
    assert Stale(groups, d) == {};
    assert PolicyTodo(groups, d) == {};
    if RangesAreCanonical(d) {
      assert RulesTodo(groups, d) == {};
    } else {
      var k :| 0 <= k < |d.specs| && !AllCanonical(d.specs[k]);
      assert d.zones[0] in d.zones;
      assert (k, d.zones[0]) in RulesTodo(groups, d);
    }
  }

  /** The pass, run again and again with whatever cut-offs: however often that
      is, the writes that take effect are bounded by the work there was. Once it
      has succeeded, another run sends no write at all. */
  method RerunPass(cloud: GroupCloud, d: Desired, attempts: nat) returns (r: Result<(), Failure>)
    requires cloud.Valid() && WellPosed(d) && NoDuplicates(cloud.groups, d) && RangesAreCanonical(d)
    modifies cloud
    ensures cloud.Valid() && NoDuplicates(cloud.groups, d)
    ensures cloud.applied - old(cloud.applied) + Work(cloud.groups, d) <= Work(old(cloud.groups), d)
    ensures r.Ok? ==> Converged(cloud.groups, d) && Work(cloud.groups, d) == 0
    ensures attempts > 0 && r == Err(ApiFailure) ==> cloud.failures > old(cloud.failures)
  {
    hide WellPosed, NoDuplicates, RangesAreCanonical, Converged, Work, OthersUntouched, GroupCloud.Valid;
    r := Err(ApiFailure);
    for i := 0 to attempts
      invariant cloud.failures >= old(cloud.failures)
      invariant i > 0 && r == Err(ApiFailure) ==> cloud.failures > old(cloud.failures)
      invariant cloud.Valid() && NoDuplicates(cloud.groups, d)
      invariant cloud.applied - old(cloud.applied) + Work(cloud.groups, d) <= Work(old(cloud.groups), d)
      invariant r.Ok? ==> Converged(cloud.groups, d) && Work(cloud.groups, d) == 0
    {
      r := EnsureSecurityGroups(cloud, d);
    }
  }

  // ---- Meaning ----

  /** The declared rules of one direction are such that the cut to 32 bits does
      not touch their meaning. */
  predicate PolicyKeepsItsMeaning(policy: Option<SpecPolicy>) {
    forall i | 0 <= i < |RulesOf(policy)| :: KeepsItsMeaning(RulesOf(policy)[i])
  }

  /** The group does to every packet what the declaration says. */
  ghost predicate Means(g: Group, spec: GroupSpec) {
    && !g.defaultSecurity
    && (PolicyKeepsItsMeaning(spec.inbound) ==>
          forall p :: Decide(InDirection(g.rules, Inbound), g.inbound, p) == SpecDecide(spec.inbound, p))
    && (PolicyKeepsItsMeaning(spec.outbound) ==>
          forall p :: Decide(InDirection(g.rules, Outbound), g.outbound, p) == SpecDecide(spec.outbound, p))
  }

  lemma RightGroupMeans(g: Group, spec: GroupSpec)
    requires Right(g, spec)
    ensures Means(g, spec)
  {
    hide AllSame, CompilesTo, RulesOf, KeepsItsMeaning, DefaultPolicy;
    forall p ensures PolicyKeepsItsMeaning(spec.inbound) ==>
                       Decide(InDirection(g.rules, Inbound), g.inbound, p) == SpecDecide(spec.inbound, p) {
      if PolicyKeepsItsMeaning(spec.inbound) {
        PolicyMeaningIsPreserved(spec.inbound, Inbound, InDirection(g.rules, Inbound), g.inbound, p);
      }
    }
    forall p ensures PolicyKeepsItsMeaning(spec.outbound) ==>
                       Decide(InDirection(g.rules, Outbound), g.outbound, p) == SpecDecide(spec.outbound, p) {
      if PolicyKeepsItsMeaning(spec.outbound) {
        PolicyMeaningIsPreserved(spec.outbound, Outbound, InDirection(g.rules, Outbound), g.outbound, p);
      }
    }
  }

  /** The zone has the group of a declared one, under its tag and name. */
  ghost predicate HasMeaning(groups: Groups, cluster: string, spec: GroupSpec, zone: string) {
    exists id | id in groups ::
      && groups[id].tag == "caps-cluster=" + "caps-" + cluster && groups[id].zone == zone
      && groups[id].name == "caps-" + cluster + "-" + spec.name && Means(groups[id], spec)
  }

  predicate IsDeclared(g: Group, cluster: string, specs: seq<GroupSpec>) {
    exists k | 0 <= k < |specs| :: g.name == "caps-" + cluster + "-" + specs[k].name
  }

  /** In every zone there is a group for each declared one that means it, and
      under the tag of the cluster there is no group of another name. */
  ghost predicate GroupsMeanTheSpec(groups: Groups, cluster: string, specs: seq<GroupSpec>, zones: seq<string>) {
    && (forall k, zone | 0 <= k < |specs| && zone in zones :: HasMeaning(groups, cluster, specs[k], zone))
    && (forall id | id in groups && groups[id].tag == "caps-cluster=" + "caps-" + cluster && groups[id].zone in zones ::
          IsDeclared(groups[id], cluster, specs))
  }

  /** In a converged state the groups mean the declaration. */
  lemma ConvergedGroupsMeanTheSpec(groups: Groups, d: Desired)
    requires Converged(groups, d)
    ensures GroupsMeanTheSpec(groups, d.cluster, d.specs, d.zones)
  {
    hide PoliciesRight, RulesAccepted, RulesCompiled, Means, NoDuplicates;
    forall k, zone | 0 <= k < |d.specs| && zone in d.zones ensures HasMeaning(groups, d.cluster, d.specs[k], zone) {
      assert Settled(groups, d, k, zone);
      var id :| id in groups && At(groups[id], d, k, zone) && Right(groups[id], d.specs[k]);
      RightGroupMeans(groups[id], d.specs[k]);
      TagAndName(d, k);
    }
    forall id | id in groups && groups[id].tag == "caps-cluster=" + "caps-" + d.cluster && groups[id].zone in d.zones
      ensures IsDeclared(groups[id], d.cluster, d.specs)
    {
      TagAndName(d, 0);
      assert Own(groups[id], d);
      var k :| 0 <= k < |d.specs| && NameOf(d, k) == groups[id].name;
      TagAndName(d, k);
    }
  }

  /** The tag and the names, letter by letter. */
  lemma TagAndName(d: Desired, k: nat)
    ensures ClusterTag(d.cluster) == "caps-cluster=" + "caps-" + d.cluster
    ensures k < |d.specs| ==> NameOf(d, k) == "caps-" + d.cluster + "-" + d.specs[k].name
  {
    assert "caps-cluster=" + "caps-" + d.cluster == "caps-cluster=" + ("caps-" + d.cluster);
  }
}
