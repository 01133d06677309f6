// The access-control list of the control-plane frontend: how the cluster pass
// keeps its three entries, and what the list then admits.
module AccessControl {
  import opened Wrappers
  import opened Cidr
  import opened SecurityRules
  import opened Scope

  datatype Verdict = Allow | Deny

  datatype Acl = Acl(name: string, action: Verdict, index: int, subnets: seq<string>)

  type Acls = map<nat, Acl>

  const EVERYWHERE: seq<string> := ["0.0.0.0/0", "::/0"]

  // ---- What a list admits ----

  /** Whether a subnet text covers an address. */
  type Coverage = (string, Address) -> bool

  predicate Hits(acl: Acl, covers: Coverage, a: Address) {
    exists i | 0 <= i < |acl.subnets| :: covers(acl.subnets[i], a)
  }

  /** The first entry that hits decides; nothing hit admits. */
  function FirstMatch(order: seq<Acl>, covers: Coverage, a: Address): Verdict {
    if order == [] then Allow
    else if Hits(order[0], covers, a) then order[0].action
    else FirstMatch(order[1..], covers, a)
  }

  predicate Sorted(order: seq<Acl>) {
    forall i, j | 0 <= i < j < |order| :: order[i].index <= order[j].index
  }

  /** An order in which the cloud may evaluate the entries: by index, with ties
      in any order. */
  ghost predicate ByIndex(order: seq<Acl>, acls: Acls) {
    && Sorted(order)
    && (forall acl :: acl in order <==> acl in acls.Values)
  }

  predicate SomeHit(acls: Acls, action: Verdict, covers: Coverage, a: Address) {
    exists id | id in acls :: acls[id].action == action && Hits(acls[id], covers, a)
  }

  lemma {:induction false} AllowsBeforeDenies(order: seq<Acl>, covers: Coverage, a: Address)
    requires forall i, j | 0 <= i < |order| && 0 <= j < |order| && order[i].action == Allow
              && order[j].action == Deny :: i < j
    ensures FirstMatch(order, covers, a) == Allow
       <==> (exists i | 0 <= i < |order| :: order[i].action == Allow && Hits(order[i], covers, a))
            || !(exists i | 0 <= i < |order| :: order[i].action == Deny && Hits(order[i], covers, a))
  {
    hide Hits;
    if order != [] {
      var rest := order[1..];
      forall i, j | 0 <= i < |rest| && 0 <= j < |rest| && rest[i].action == Allow && rest[j].action == Deny
          ensures i < j {
        assert order[i + 1].action == Allow && order[j + 1].action == Deny;
      }
      AllowsBeforeDenies(rest, covers, a);
      assert forall i | 0 <= i < |rest| :: rest[i] == order[i + 1];
    }
  }

  // ---- The invariant of the list ----

  predicate IsMachineAclName(name: string) {
    "caps-" <= name
  }

  lemma NamesAreApart()
    ensures !IsMachineAclName(ALLOWED_RANGES) && !IsMachineAclName(PUBLIC_GATEWAY) && !IsMachineAclName(DENY_ALL)
    ensures ALLOWED_RANGES != PUBLIC_GATEWAY && ALLOWED_RANGES != DENY_ALL && PUBLIC_GATEWAY != DENY_ALL
  {
    assert ALLOWED_RANGES[0] == 'a' && PUBLIC_GATEWAY[0] == 'p' && DENY_ALL[0] == 'd' && "caps-"[0] == 'c';
  }

  /** The entry is one the controllers make, with the action and index they give it. */
  predicate Expected(acl: Acl) {
    if acl.name == ALLOWED_RANGES then acl.action == Allow && acl.index == 1
    else if acl.name == PUBLIC_GATEWAY then acl.action == Allow && acl.index == 2
    else if acl.name == DENY_ALL then acl.action == Deny && acl.index == 4 && acl.subnets == EVERYWHERE
    else IsMachineAclName(acl.name) && acl.action == Allow && acl.index == 3
  }

  predicate NamesAreUnique(acls: Acls) {
    forall i, j | i in acls && j in acls && acls[i].name == acls[j].name :: i == j
  }

  predicate ListInvariant(acls: Acls) {
    NamesAreUnique(acls) && forall id | id in acls :: Expected(acls[id])
  }

  predicate Has(acls: Acls, name: string) {
    exists id | id in acls :: acls[id].name == name
  }

  predicate HasWith(acls: Acls, name: string, subnets: seq<string>) {
    exists id | id in acls :: acls[id].name == name && acls[id].subnets == subnets
  }

  /** In every evaluation order, an address is admitted exactly when an allow
      entry hits it or there is no deny-all entry. Ties cannot matter. */
  lemma AdmissionIsOrderFree(acls: Acls, order: seq<Acl>, covers: Coverage, a: Address)
    requires ListInvariant(acls) && ByIndex(order, acls)
    requires covers("0.0.0.0/0", a) || covers("::/0", a)
    ensures FirstMatch(order, covers, a) == Allow <==> SomeHit(acls, Allow, covers, a) || !Has(acls, DENY_ALL)
  {
    forall i | 0 <= i < |order| ensures Expected(order[i]) && order[i] in acls.Values {
      assert order[i] in order;
    }
    forall i, j | 0 <= i < |order| && 0 <= j < |order| && order[i].action == Allow && order[j].action == Deny
        ensures i < j {
      assert order[i].index < order[j].index;
    }
    AllowsBeforeDenies(order, covers, a);
    DenyHitsExactlyWithDenyAll(acls, covers, a);
    HitsInOrder(acls, order, Allow, covers, a);
    HitsInOrder(acls, order, Deny, covers, a);
  }

  lemma DenyHitsExactlyWithDenyAll(acls: Acls, covers: Coverage, a: Address)
    requires ListInvariant(acls)
    requires covers("0.0.0.0/0", a) || covers("::/0", a)
    ensures SomeHit(acls, Deny, covers, a) <==> Has(acls, DENY_ALL)
  {
    forall id | id in acls && acls[id].name == DENY_ALL ensures Hits(acls[id], covers, a) {
      assert covers(acls[id].subnets[0], a) || covers(acls[id].subnets[1], a);
    }
  }

  lemma HitsInOrder(acls: Acls, order: seq<Acl>, action: Verdict, covers: Coverage, a: Address)
    requires ByIndex(order, acls)
    ensures SomeHit(acls, action, covers, a) <==> exists i | 0 <= i < |order| ::
              order[i].action == action && Hits(order[i], covers, a)
  {
    hide Hits;
    if i :| 0 <= i < |order| && order[i].action == action && Hits(order[i], covers, a) {
      assert order[i] in order;
    }
    forall id | id in acls && acls[id].action == action && Hits(acls[id], covers, a)
      ensures exists i | 0 <= i < |order| :: order[i].action == action && Hits(order[i], covers, a)
    {
      assert acls[id] in acls.Values;
      var i :| 0 <= i < |order| && order[i] == acls[id];
    }
  }

  /** The reading of subnet texts for IPv4: a CIDR text or a single address. */
  predicate Covers4(text: string, a: Address) {
    if text == "::/0" then a.V6?
    else if ParseCIDR(text).Some? then a.V4? && Contains(ParseCIDR(text).value.net, a.addr)
    else ParseAddr(text).Some? && a == V4(ParseAddr(text).value)
  }

  /** Under that reading the deny-all texts cover every address. */
  lemma EverywhereCoversEveryAddress(a: Address)
    ensures Covers4("0.0.0.0/0", a) || Covers4("::/0", a)
  {
    AnywhereIsCanonical();
    DefaultRangeKeepsMembers(a);
  }

  // ---- What the cluster pass leaves ----

  predicate InSomeRange(ranges: seq<string>, covers: Coverage, a: Address) {
    exists i | 0 <= i < |ranges| :: covers(ranges[i], a)
  }

  /** A machine's entry hits the address. */
  predicate MachineAllows(acls: Acls, covers: Coverage, a: Address) {
    exists id | id in acls :: IsMachineAclName(acls[id].name) && Hits(acls[id], covers, a)
  }

  /** The three fixed entries as a successful pass leaves them. `gateways` is the
      list of gateway addresses, None without a Private Network. */
  predicate FixedEntriesAre(acls: Acls, ranges: seq<string>, gateways: Option<seq<string>>) {
    && (if ranges == [] then !Has(acls, ALLOWED_RANGES) && !Has(acls, DENY_ALL)
        else HasWith(acls, ALLOWED_RANGES, ranges) && HasWith(acls, DENY_ALL, EVERYWHERE))
    && (if gateways.None? || gateways.value == [] then !Has(acls, PUBLIC_GATEWAY)
        else HasWith(acls, PUBLIC_GATEWAY, gateways.value))
  }

  function GatewayList(gateways: Option<seq<string>>): seq<string> {
    if gateways.None? then [] else gateways.value
  }

  /** The meaning of the list after a successful pass: no declared ranges admit
      everything; otherwise exactly the ranges, the attached gateways and the
      machines are admitted. */
  lemma ListMeansTheDeclaration(acls: Acls, order: seq<Acl>, ranges: seq<string>, gateways: Option<seq<string>>,
      covers: Coverage, a: Address)
    requires ListInvariant(acls) && ByIndex(order, acls) && FixedEntriesAre(acls, ranges, gateways)
    requires covers("0.0.0.0/0", a) || covers("::/0", a)
    ensures FirstMatch(order, covers, a) == Allow
       <==>
            ranges == [] || InSomeRange(ranges, covers, a) || InSomeRange(GatewayList(gateways), covers, a)
            || MachineAllows(acls, covers, a)
  {
    AdmissionIsOrderFree(acls, order, covers, a);
    if ranges != [] {
      AllowHitsAre(acls, ranges, gateways, covers, a);
    }
  }

  lemma AllowHitsAre(acls: Acls, ranges: seq<string>, gateways: Option<seq<string>>, covers: Coverage, a: Address)
    requires ListInvariant(acls) && FixedEntriesAre(acls, ranges, gateways) && ranges != []
    ensures SomeHit(acls, Allow, covers, a)
       <==>
            InSomeRange(ranges, covers, a) || InSomeRange(GatewayList(gateways), covers, a)
            || MachineAllows(acls, covers, a)
  {
    NamesAreApart();
    hide IsMachineAclName;
    var r :| r in acls && acls[r].name == ALLOWED_RANGES && acls[r].subnets == ranges;
    assert Hits(acls[r], covers, a) <==> InSomeRange(ranges, covers, a);
    if GatewayList(gateways) != [] {
      var g :| g in acls && acls[g].name == PUBLIC_GATEWAY && acls[g].subnets == gateways.value;
      assert Hits(acls[g], covers, a) <==> InSomeRange(gateways.value, covers, a);
    }
    assert forall id | id in acls && acls[id].action == Allow ::
        acls[id].name == ALLOWED_RANGES || acls[id].name == PUBLIC_GATEWAY || IsMachineAclName(acls[id].name);
    assert forall id | id in acls && IsMachineAclName(acls[id].name) :: acls[id].action == Allow;
  }

  /** Nobody in the declared ranges is locked out. */
  predicate RangesAreSafe(acls: Acls, ranges: seq<string>) {
    HasWith(acls, ALLOWED_RANGES, ranges) || !Has(acls, DENY_ALL)
  }

  lemma SafeRangesAreAdmitted(acls: Acls, order: seq<Acl>, ranges: seq<string>, covers: Coverage, a: Address)
    requires ListInvariant(acls) && ByIndex(order, acls) && RangesAreSafe(acls, ranges)
    requires InSomeRange(ranges, covers, a)
    requires covers("0.0.0.0/0", a) || covers("::/0", a)
    ensures FirstMatch(order, covers, a) == Allow
  {
    AdmissionIsOrderFree(acls, order, covers, a);
    if r :| r in acls && acls[r].name == ALLOWED_RANGES && acls[r].subnets == ranges {
      assert Hits(acls[r], covers, a);
      assert acls[r].action == Allow;
    }
  }

  // ---- What clients get ----

  /** Whatever order the cloud evaluates ties in, the address is let in. */
  ghost predicate Admits(acls: Acls, a: Address) {
    forall order | ByIndex(order, acls) :: FirstMatch(order, Covers4, a) == Allow
  }

  /** What the declaration says of an address, with the machines there are. */
  predicate Declared(acls: Acls, ranges: seq<string>, gateways: Option<seq<string>>, a: Address) {
    || ranges == [] || InSomeRange(ranges, Covers4, a)
    || InSomeRange(GatewayList(gateways), Covers4, a) || MachineAllows(acls, Covers4, a)
  }

  function Insert(order: seq<Acl>, acl: Acl): seq<Acl> {
    if order == [] || acl.index <= order[0].index then [acl] + order else [order[0]] + Insert(order[1..], acl)
  }

  lemma {:induction false} InsertAddsOne(order: seq<Acl>, acl: Acl, x: Acl)
    ensures x in Insert(order, acl) <==> x == acl || x in order
  {
    if order != [] && acl.index > order[0].index {
      InsertAddsOne(order[1..], acl, x);
      assert order == [order[0]] + order[1..];
    }
  }

  lemma {:induction false} InsertKeepsOrder(order: seq<Acl>, acl: Acl)
    requires Sorted(order)
    ensures Sorted(Insert(order, acl))
  {
    if order != [] && acl.index > order[0].index {
      InsertKeepsOrder(order[1..], acl);
      var rest := Insert(order[1..], acl);
      forall i | 0 <= i < |rest| ensures order[0].index <= rest[i].index {
        InsertAddsOne(order[1..], acl, rest[i]);
        assert rest[i] in rest;
        if rest[i] in order[1..] {
          var k :| 0 <= k < |order| - 1 && order[1..][k] == rest[i];
          assert order[k + 1] == rest[i];
        }
      }
    }
  }

  /** The cloud can always evaluate a list in some order. */
  lemma {:induction false} SomeOrder(acls: Acls) returns (order: seq<Acl>)
    ensures ByIndex(order, acls)
    decreases |acls|
  {
    if id :| id in acls {
      var rest := acls - {id};
      assert rest.Keys == acls.Keys - {id} && |rest.Keys| == |rest| && |acls.Keys| == |acls|;
      var before := SomeOrder(rest);
      InsertKeepsOrder(before, acls[id]);
      order := Insert(before, acls[id]);
      forall acl ensures acl in order <==> acl == acls[id] || acl in before {
        InsertAddsOne(before, acls[id], acl);
      }
      forall acl ensures acl in acls.Values <==> acl == acls[id] || acl in rest.Values {
        if acl in acls.Values {
          var k :| k in acls && acls[k] == acl;
          if k != id { assert k in rest && rest[k] == acl; }
        }
        if acl in rest.Values {
          var k :| k in rest && rest[k] == acl;
          assert acls[k] == acl;
        }
        assert acls[id] in acls.Values;
      }
    } else {
      order := [];
      assert acls.Values == {};
    }
  }

  /** The meaning of the declared list for clients, in both directions. */
  lemma AdmittedExactlyAsDeclared(acls: Acls, ranges: seq<string>, gateways: Option<seq<string>>, a: Address)
    requires ListInvariant(acls) && FixedEntriesAre(acls, ranges, gateways)
    ensures Admits(acls, a) <==> Declared(acls, ranges, gateways, a)
  {
    EverywhereCoversEveryAddress(a);
    hide ListInvariant, FixedEntriesAre, Covers4, InSomeRange, MachineAllows, ByIndex;
    forall order | ByIndex(order, acls)
      ensures FirstMatch(order, Covers4, a) == Allow <==> Declared(acls, ranges, gateways, a)
    {
      ListMeansTheDeclaration(acls, order, ranges, gateways, Covers4, a);
    }
    var order := SomeOrder(acls);
  }

  /** An allowed-ranges entry lets its ranges in, whatever else is on the list;
      without deny-all everyone is let in. */
  lemma EntryAdmitsItsRanges(acls: Acls, ranges: seq<string>, a: Address)
    requires ListInvariant(acls) && RangesAreSafe(acls, ranges) && InSomeRange(ranges, Covers4, a)
    ensures Admits(acls, a)
  {
    EverywhereCoversEveryAddress(a);
    hide ListInvariant, RangesAreSafe, Covers4, InSomeRange, ByIndex;
    forall order | ByIndex(order, acls) ensures FirstMatch(order, Covers4, a) == Allow {
      SafeRangesAreAdmitted(acls, order, ranges, Covers4, a);
    }
  }
}
