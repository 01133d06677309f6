// Security-group rules: the declared form, the compiled form sent to the
// cloud, their comparison, and what both mean for a packet.
module SecurityRules {
  import opened Wrappers
  import opened Decimal
  import opened Ports
  import opened Cidr

  // ---- Declared rules (text, as in the cluster object) ----

  datatype SpecRule = SpecRule(action: string, protocol: Option<string>, ports: Option<string>, ipRange: Option<string>)

  datatype SpecPolicy = SpecPolicy(defaultAction: Option<string>, rules: seq<SpecRule>)

  datatype GroupSpec = GroupSpec(name: string, inbound: Option<SpecPolicy>, outbound: Option<SpecPolicy>)

  // ---- Instance rules (as the cloud keeps them) ----

  datatype Action = Accept | Drop

  datatype Protocol = ANY | TCP | UDP | ICMP

  datatype Direction = Inbound | Outbound

  datatype Rule =
    Rule(action: Action, protocol: Protocol, direction: Direction, net: Net, ports: PortRange, position: Port)

  datatype RuleError = UnknownAction | UnknownProtocol | BadPorts(error: PortError) | BadCIDR

  // ---- Conversions ----

  function ToInstanceAction(action: string): Result<Action, RuleError> {
    if action == "Accept" then Ok(Accept)
    else if action == "Drop" then Ok(Drop)
    else Err(UnknownAction)
  }

  function ToInstancePolicy(action: Option<string>): Result<Action, RuleError> {
    if action.None? then Ok(Accept) else ToInstanceAction(action.value)
  }

  function ToInstanceProtocol(protocol: Option<string>): Result<Protocol, RuleError> {
    if protocol.None? || protocol.value == "ANY" then Ok(ANY)
    else if protocol.value == "TCP" then Ok(TCP)
    else if protocol.value == "UDP" then Ok(UDP)
    else if protocol.value == "ICMP" then Ok(ICMP)
    else Err(UnknownProtocol)
  }

  /** defaultPolicy: a missing policy or default accepts. */
  function DefaultPolicy(policy: Option<SpecPolicy>): Result<Action, RuleError> {
    if policy.None? then Ok(Accept) else ToInstancePolicy(policy.value.defaultAction)
  }

  function RulesOf(policy: Option<SpecPolicy>): seq<SpecRule> {
    if policy.None? then [] else policy.value.rules
  }

  function RangeText(rule: SpecRule): string {
    if rule.ipRange.None? then "0.0.0.0/0" else rule.ipRange.value
  }

  /** One step of compareRules: the tests in the order of the code, so that an
      error is met only when every earlier field agrees. */
  function CompareRule(a: SpecRule, b: Rule): Result<bool, RuleError> {
    var protocol :- ToInstanceProtocol(a.protocol);
    if protocol != b.protocol then Ok(false)
    else
      var action :- ToInstanceAction(a.action);
      if action != b.action then Ok(false)
      else if RangeText(a) != PrintNet(b.net) then Ok(false)
      else
        var ports := ToRange(a.ports);
        if ports.Err? then Err(BadPorts(ports.error))
        else Ok(ports.value == b.ports)
  }

  /** toInstanceRequestRule. */
  function CompileRule(position: Port, rule: SpecRule, direction: Direction): Result<Rule, RuleError> {
    var action :- ToInstanceAction(rule.action);
    var protocol :- ToInstanceProtocol(rule.protocol);
    var ports := ToRange(rule.ports);
    if ports.Err? then Err(BadPorts(ports.error))
    else
      var parsed := ParseCIDR(RangeText(rule));
      if parsed.None? then Err(BadCIDR)
      else Ok(Rule(action, protocol, direction, parsed.value.net, ports.value, position))
  }

  // The texts of a rule that can be compiled, read without any conversion.

  predicate ActionIsWritten(action: string) {
    action == "Accept" || action == "Drop"
  }

  predicate ProtocolIsWritten(protocol: Option<string>) {
    || protocol == None || protocol == Some("ANY") || protocol == Some("TCP")
    || protocol == Some("UDP") || protocol == Some("ICMP")
  }

  ghost predicate PortsAreWritten(ports: Option<string>) {
    ports.Some? ==>
      || (exists n: nat :: Writes(ports.value, n))
      || (exists lo: nat, hi: nat :: WritesRange(ports.value, lo, hi))
  }

  ghost predicate RangeIsWritten(range: Option<string>) {
    range.Some? ==> exists addr, len :: WritesNet(range.value, addr, len)
  }

  ghost predicate WellWritten(rule: SpecRule) {
    && ActionIsWritten(rule.action) && ProtocolIsWritten(rule.protocol)
    && PortsAreWritten(rule.ports) && RangeIsWritten(rule.ipRange)
  }

  lemma WrittenTextsConvert(rule: SpecRule)
    ensures ToInstanceAction(rule.action).Ok? <==> ActionIsWritten(rule.action)
    ensures ToInstanceProtocol(rule.protocol).Ok? <==> ProtocolIsWritten(rule.protocol)
    ensures ToRange(rule.ports).Ok? <==> PortsAreWritten(rule.ports)
    ensures rule.ipRange.Some? ==> (ParseCIDR(rule.ipRange.value).Some? <==> RangeIsWritten(rule.ipRange))
    ensures ParseCIDR(RangeText(rule)).Some? <==> RangeIsWritten(rule.ipRange)
    ensures rule.ipRange.None? ==> RangeIsWritten(rule.ipRange)
  {
    hide ToRange, PortsAreWritten, ParseCIDR, RangeIsWritten, RangeText;
    PortsConvert(rule.ports);
    RangesConvert(rule);
  }

  lemma RangesConvert(rule: SpecRule)
    ensures rule.ipRange.Some? ==> (ParseCIDR(rule.ipRange.value).Some? <==> RangeIsWritten(rule.ipRange))
    ensures ParseCIDR(RangeText(rule)).Some? <==> RangeIsWritten(rule.ipRange)
    ensures rule.ipRange.None? ==> RangeIsWritten(rule.ipRange)
  {
    hide ParseCIDR, WritesNet, Canonical;
    if rule.ipRange.Some? {
      AcceptsExactlyWrittenNets(rule.ipRange.value);
    } else {
      AnywhereParses();
    }
  }

  lemma AnywhereParses()
    ensures ParseCIDR("0.0.0.0/0").Some?
  {
    AnywhereIsCanonical();
  }

  /** Each protocol text names its protocol. */
  lemma WrittenProtocols(protocol: Option<string>)
    ensures protocol == Some("TCP") <==> ToInstanceProtocol(protocol) == Ok(TCP)
    ensures protocol == Some("UDP") <==> ToInstanceProtocol(protocol) == Ok(UDP)
    ensures protocol == Some("ICMP") <==> ToInstanceProtocol(protocol) == Ok(ICMP)
    ensures protocol == None || protocol == Some("ANY") <==> ToInstanceProtocol(protocol) == Ok(ANY)
  {
    assert "ANY"[0] == 'A' && "TCP"[0] == 'T' && "UDP"[0] == 'U' && "ICMP"[0] == 'I';
  }

  lemma PortsConvert(ports: Option<string>)
    ensures ToRange(ports).Ok? <==> PortsAreWritten(ports)
  {
    if ports.Some? {
      hide ToRange, Writes, WritesRange;
      AcceptsExactlyWrittenPorts(ports.value);
    }
  }

  lemma CompilesExactlyWhenWellWritten(position: Port, rule: SpecRule, direction: Direction)
    ensures CompileRule(position, rule, direction).Ok? <==> WellWritten(rule)
  {
    hide ToRange, ParseCIDR, ToInstanceAction, ToInstanceProtocol, ActionIsWritten, ProtocolIsWritten, PortsAreWritten,
      RangeIsWritten, RangeText;
    WrittenTextsConvert(rule);
  }

  /** The first n declared rules agree, field by field, with the stored ones. */
  predicate SameUpTo(a: seq<SpecRule>, b: seq<Rule>, n: nat)
    requires n <= |a| && n <= |b|
  {
    forall i | 0 <= i < n :: CompareRule(a[i], b[i]) == Ok(true)
  }

  predicate AllSame(a: seq<SpecRule>, b: seq<Rule>) {
    |a| == |b| && SameUpTo(a, b, |a|)
  }

  /** compareRules. An error shows only behind a prefix that agrees. */
  method CompareRules(a: seq<SpecRule>, b: seq<Rule>) returns (r: Result<bool, RuleError>)
    ensures r == Ok(true) <==> AllSame(a, b)
    ensures r.Err? <==> |a| == |b| && exists i | 0 <= i < |a| :: CompareRule(a[i], b[i]).Err? && SameUpTo(a, b, i)
  {
    hide CompareRule;
    if |a| != |b| {
      return Ok(false);
    }
    for i := 0 to |a|
      invariant SameUpTo(a, b, i)
    {
      var same := CompareRule(a[i], b[i]);
      if same != Ok(true) {
        return same;
      }
    }
    r := Ok(true);
  }

  /** The rule list the code builds for one direction. */
  predicate CompilesTo(rules: seq<SpecRule>, direction: Direction, out: seq<Rule>) {
    && |out| == |rules|
    && forall i | 0 <= i < |rules| :: CompileRule(ToUint32(i + 1), rules[i], direction) == Ok(out[i])
  }

  /** The loop that turns the rules of one direction into request rules. It fails
      exactly if some text is not what it should be. */
  method CompileRules(rules: seq<SpecRule>, direction: Direction) returns (r: Result<seq<Rule>, RuleError>)
    ensures r.Ok? ==> CompilesTo(rules, direction, r.value)
    ensures r.Err? <==> exists i | 0 <= i < |rules| :: CompileRule(ToUint32(i + 1), rules[i], direction).Err?
    ensures r.Ok? <==> forall i | 0 <= i < |rules| :: WellWritten(rules[i])
    ensures r.Ok? ==> |r.value| == |rules| && forall i | 0 <= i < |rules| ::
              r.value[i].direction == direction && (i + 1 < 0x1_0000_0000 ==> r.value[i].position == i + 1)
  {
    hide CompileRule, WellWritten;
    forall i | 0 <= i < |rules|
      ensures CompileRule(ToUint32(i + 1), rules[i], direction).Ok? <==> WellWritten(rules[i])
    {
      CompilesExactlyWhenWellWritten(ToUint32(i + 1), rules[i], direction);
    }
    var out := [];
    for i := 0 to |rules|
      invariant |out| == i
      invariant forall j | 0 <= j < i :: CompileRule(ToUint32(j + 1), rules[j], direction) == Ok(out[j])
      invariant forall j | 0 <= j < i ::
                  out[j].direction == direction && (j + 1 < 0x1_0000_0000 ==> out[j].position == j + 1)
    {
      CompiledIsPlaced(ToUint32(i + 1), rules[i], direction);
      var rule := CompileRule(ToUint32(i + 1), rules[i], direction);
      if rule.Err? {
        return Err(rule.error);
      }
      out := out + [rule.value];
    }
    r := Ok(out);
  }

  lemma CompiledIsPlaced(position: Port, rule: SpecRule, direction: Direction)
    ensures var r := CompileRule(position, rule, direction);
            r.Ok? ==> r.value.position == position && r.value.direction == direction
  {
    hide ToRange, ParseCIDR, ToInstanceAction, ToInstanceProtocol;
  }

  ghost predicate RuleNeverFails(rule: SpecRule) {
    && (forall position: Port, direction :: CompileRule(position, rule, direction).Ok?)
    && (forall stored :: CompareRule(rule, stored).Ok?)
  }

  /** No conversion of a policy can fail. */
  ghost predicate ConversionsSucceed(policy: Option<SpecPolicy>) {
    && DefaultPolicy(policy).Ok?
    && forall i | 0 <= i < |RulesOf(policy)| :: RuleNeverFails(RulesOf(policy)[i])
  }

  // ---- Convergence of compile and compare ----

  /** A range text the comparison can recognise again. */
  predicate CanonicalRange(rule: SpecRule) {
    rule.ipRange.Some? ==> Canonical(rule.ipRange.value)
  }

  lemma AnywhereIsCanonical()
    ensures Canonical("0.0.0.0/0") && ParseCIDR("0.0.0.0/0").value.net == ANYWHERE
  {
    hide ParseCIDR, PrintNet, Canonical, MaskAddr;
    AnywhereText();
    assert Masked(ANYWHERE) by { MaskingKeepsMembers(ANYWHERE.base, 0, ANYWHERE.base); ClearZero(); }
    PrintedMaskedIsCanonical(ANYWHERE);
    PrintedNetParses(ANYWHERE);
  }

  lemma {:induction false} ClearZero()
    ensures MaskAddr(ANYWHERE.base, 0) == ANYWHERE.base
  {
    assert ClearLow(0, 8) == 0;
  }

  lemma AnywhereText()
    ensures PrintNet(ANYWHERE) == "0.0.0.0/0"
  {
    assert Print(0) == "0";
    var parts := ["0", "0", "0", "0"];
    assert Join(parts[3..], '.') == "0";
    assert Join(parts[2..], '.') == "0.0" by { assert parts[2..][1..] == parts[3..]; }
    assert Join(parts[1..], '.') == "0.0.0" by { assert parts[1..][1..] == parts[2..]; }
    assert Join(parts, '.') == "0.0.0.0";
  }

  lemma RangeIsRecognisedIff(rule: SpecRule)
    requires ParseCIDR(RangeText(rule)).Some?
    ensures PrintNet(ParseCIDR(RangeText(rule)).value.net) == RangeText(rule) <==> CanonicalRange(rule)
  {
    AnywhereIsCanonical();
    ReprintsItselfExactlyWhenCanonical(RangeText(rule));
  }

  lemma CompiledRuleComparesEqualIff(position: Port, rule: SpecRule, direction: Direction, out: Rule)
    requires CompileRule(position, rule, direction) == Ok(out)
    ensures CompareRule(rule, out).Ok?
    ensures CompareRule(rule, out) == Ok(true) <==> CanonicalRange(rule)
  {
    hide ToRange, ParseCIDR, CanonicalRange;
    RangeIsRecognisedIff(rule);
  }

  /** Comparing a rule list with what was stored for it says "equal" exactly
      when every range is unset or canonical text, and never fails. */
  lemma StoredRulesCompareEqualIffCanonical(rules: seq<SpecRule>, direction: Direction, out: seq<Rule>)
    requires CompilesTo(rules, direction, out)
    ensures AllSame(rules, out) <==> forall i | 0 <= i < |rules| :: CanonicalRange(rules[i])
    ensures forall i | 0 <= i < |rules| :: CompareRule(rules[i], out[i]).Ok?
  {
    forall i | 0 <= i < |rules|
      ensures CompareRule(rules[i], out[i]) == Ok(true) <==> CanonicalRange(rules[i])
      ensures CompareRule(rules[i], out[i]).Ok?
    {
      CompiledRuleComparesEqualIff(ToUint32(i + 1), rules[i], direction, out[i]);
    }
  }

  // ---- Meaning ----

  datatype Address = V4(addr: Addr) | V6(bits: nat)

  datatype Traffic = TcpTraffic | UdpTraffic | IcmpTraffic | OtherTraffic

  datatype Packet = Packet(traffic: Traffic, remote: Address, port: nat)

  predicate HasPorts(p: Packet) {
    p.traffic == TcpTraffic || p.traffic == UdpTraffic
  }

  predicate ProtocolCovers(protocol: Protocol, traffic: Traffic) {
    match protocol
    case ANY => true
    case TCP => traffic == TcpTraffic
    case UDP => traffic == UdpTraffic
    case ICMP => traffic == IcmpTraffic
  }

  /** A stored port pair: nothing set covers all ports, `from` alone one port. */
  predicate PortsCover(ports: PortRange, port: nat) {
    if ports.from.None? then true
    else if ports.to.None? then port == ports.from.value
    else ports.from.value <= port <= ports.to.value
  }

  predicate Matches(rule: Rule, p: Packet) {
    && ProtocolCovers(rule.protocol, p.traffic)
    && p.remote.V4? && Contains(rule.net, p.remote.addr)
    && (HasPorts(p) ==> PortsCover(rule.ports, p.port))
  }

  /** First matching rule decides, else the default. */
  function Decide(rules: seq<Rule>, byDefault: Action, p: Packet): Action {
    if rules == [] then byDefault
    else if Matches(rules[0], p) then rules[0].action
    else Decide(rules[1..], byDefault, p)
  }

  // The declared meaning reads the written texts: unbounded port numbers, and
  // ranges as sets of addresses that share the written prefix.

  ghost predicate WrittenPortsCover(ports: Option<string>, port: nat) {
    ports.Some? ==>
      || Writes(ports.value, port)
      || exists lo: nat, hi: nat :: WritesRange(ports.value, lo, hi) && lo <= port <= hi
  }

  predicate WrittenRangeHolds(range: Option<string>, remote: Address) {
    && remote.V4?
    && (range.Some? ==>
          var p := ParseCIDR(range.value);
          p.Some? && SharesPrefix(p.value.addr, remote.addr, p.value.net.len))
  }

  ghost predicate SpecMatches(rule: SpecRule, p: Packet) {
    && (rule.protocol == None || rule.protocol == Some("ANY")
        || (rule.protocol == Some("TCP") && p.traffic == TcpTraffic)
        || (rule.protocol == Some("UDP") && p.traffic == UdpTraffic)
        || (rule.protocol == Some("ICMP") && p.traffic == IcmpTraffic))
    && WrittenRangeHolds(rule.ipRange, p.remote)
    && (HasPorts(p) ==> WrittenPortsCover(rule.ports, p.port))
  }

  ghost function SpecDecideRules(rules: seq<SpecRule>, byDefault: Action, p: Packet): Action {
    if rules == [] then byDefault
    else if SpecMatches(rules[0], p) then (if rules[0].action == "Drop" then Drop else Accept)
    else SpecDecideRules(rules[1..], byDefault, p)
  }

  /** What a declared policy does with a packet; no policy accepts. */
  ghost function SpecDecide(policy: Option<SpecPolicy>, p: Packet): Action {
    if policy.None? then Accept
    else SpecDecideRules(policy.value.rules, if policy.value.defaultAction == Some("Drop") then Drop else Accept, p)
  }

  /** Every written port number fits in 32 bits (the last one is the largest). */
  predicate PortsFit(ports: Option<string>) {
    ports.Some? ==>
      var parts := Split(ports.value, '-');
      var last := Atoi(parts[|parts| - 1]);
      last.Some? ==> last.value < TWO_TO_THE_32
  }

  lemma WritesIsUnique(s: string, n: nat, m: nat)
    requires Writes(s, n) && Writes(s, m)
    ensures n == m
  {
  }

  lemma WritesRangeIsUnique(s: string, lo: nat, hi: nat, lo': nat, hi': nat)
    requires WritesRange(s, lo, hi) && WritesRange(s, lo', hi')
    ensures lo == lo' && hi == hi'
  {
    var a: string, b: string :| s == a + "-" + b && Writes(a, lo) && Writes(b, hi);
    var a': string, b': string :| s == a' + "-" + b' && Writes(a', lo') && Writes(b', hi');
    RangeSplits(a, b, lo, hi);
    RangeSplits(a', b', lo', hi');
    assert [a, b][0] == [a', b'][0] && [a, b][1] == [a', b'][1];
    WritesIsUnique(a, lo, lo');
    WritesIsUnique(b, hi, hi');
  }

  lemma RangeIsNoPort(s: string, lo: nat, hi: nat, n: nat)
    requires WritesRange(s, lo, hi)
    ensures !Writes(s, n)
  {
    var a: string, b: string :| s == a + "-" + b && Writes(a, lo) && Writes(b, hi);
    assert s[|a|] == '-';
    if Writes(s, n) {
      WritesHasNoDash(s, n);
    }
  }

  /** For written ports that fit, the stored pair covers the written ports. */
  lemma PortsKeepMeaning(rule: SpecRule, r: PortRange, port: nat)
    requires ToRange(rule.ports) == Ok(r) && PortsFit(rule.ports)
    ensures PortsCover(r, port) <==> WrittenPortsCover(rule.ports, port)
  {
    if rule.ports.Some? {
      hide ToRange, Writes, WritesRange, PortsFit, PortsCover, WrittenPortsCover;
      var s := rule.ports.value;
      AcceptsExactlyWrittenPorts(s);
      if n: nat :| Writes(s, n) {
        PortKeepsMeaning(s, n, r, port);
      } else {
        var lo: nat, hi: nat :| WritesRange(s, lo, hi);
        RangeKeepsMeaning(s, lo, hi, r, port);
      }
    }
  }

  lemma PortKeepsMeaning(s: string, n: nat, r: PortRange, port: nat)
    requires Writes(s, n) && ToRange(Some(s)) == Ok(r)
    requires PortsFit(Some(s))
    ensures PortsCover(r, port) <==> WrittenPortsCover(Some(s), port)
  {
    WrittenPortParses(s, n);
    PortCoversItself(s, n, port);
  }

  /** A written port covers itself alone, and fits exactly below 2^32. */
  lemma PortCoversItself(s: string, n: nat, port: nat)
    requires Writes(s, n)
    ensures WrittenPortsCover(Some(s), port) <==> port == n
    ensures PortsFit(Some(s)) <==> n < TWO_TO_THE_32
  {
    WritesHasNoDash(s, n);
    SplitOnePart(s, '-');
    if Writes(s, port) { WritesIsUnique(s, n, port); }
    forall lo: nat, hi: nat ensures !WritesRange(s, lo, hi) {
      if WritesRange(s, lo, hi) { RangeIsNoPort(s, lo, hi, n); }
    }
  }

  lemma RangeKeepsMeaning(s: string, lo: nat, hi: nat, r: PortRange, port: nat)
    requires WritesRange(s, lo, hi) && ToRange(Some(s)) == Ok(r)
    requires PortsFit(Some(s))
    ensures PortsCover(r, port) <==> WrittenPortsCover(Some(s), port)
  {
    hide ToRange, PortsFit, WrittenPortsCover;
    WrittenRangeParses(s, lo, hi);
    RangeCoversItsPorts(s, lo, hi, port);
  }

  /** A written range covers its ports, and fits exactly when its upper number does. */
  lemma RangeCoversItsPorts(s: string, lo: nat, hi: nat, port: nat)
    requires WritesRange(s, lo, hi)
    ensures WrittenPortsCover(Some(s), port) <==> lo <= port <= hi
    ensures PortsFit(Some(s)) <==> hi < TWO_TO_THE_32
  {
    hide ToRange, Atoi, Split, Writes;
    var a: string, b: string :| s == a + "-" + b && Writes(a, lo) && Writes(b, hi);
    RangeSplits(a, b, lo, hi);
    WritesHasNoDash(b, hi);
    RangeIsNoPort(s, lo, hi, port);
    forall lo': nat, hi': nat | WritesRange(s, lo', hi') ensures lo' == lo && hi' == hi {
      WritesRangeIsUnique(s, lo, hi, lo', hi');
    }
  }

  /** The stored pair covers the written ports, all of them and no other,
      exactly when the written numbers fit. */
  lemma CoverageSurvivesExactly(ports: Option<string>, r: PortRange)
    requires ToRange(ports) == Ok(r)
    ensures (forall port: nat :: PortsCover(r, port) <==> WrittenPortsCover(ports, port)) <==> PortsFit(ports)
  {
    hide ToRange, PortsFit, WrittenPortsCover, PortsCover;
    if PortsFit(ports) {
      forall port: nat ensures PortsCover(r, port) <==> WrittenPortsCover(ports, port) {
        PortsKeepMeaning(SpecRule("", None, ports, None), r, port);
      }
    } else {
      var port := LostPort(ports, r);
      assert WrittenPortsCover(ports, port) && !PortsCover(r, port);
    }
  }

  /** What does not fit loses a port: the largest one written. */
  lemma LostPort(ports: Option<string>, r: PortRange) returns (port: nat)
    requires ToRange(ports) == Ok(r) && !PortsFit(ports)
    ensures WrittenPortsCover(ports, port) && !PortsCover(r, port)
  {
    hide ToRange, WrittenPortsCover, WritesRange, Writes;
    var s := ports.value;
    assert ports == Some(s);
    AcceptsExactlyWrittenPorts(s);
    if n: nat :| Writes(s, n) {
      port := n;
      WrittenPortParses(s, n);
      PortCoversItself(s, n, n);
    } else {
      var lo: nat, hi: nat :| WritesRange(s, lo, hi);
      port := hi;
      WrittenRangeParses(s, lo, hi);
      RangeCoversItsPorts(s, lo, hi, hi);
      RangeIsAscending(s, lo, hi);
    }
  }

  lemma RangeIsAscending(s: string, lo: nat, hi: nat)
    requires WritesRange(s, lo, hi)
    ensures lo <= hi
  {
  }

  /** The same for the ports packets can have: there a wrap may go unnoticed. */
  lemma PacketCoverageSurvivesExactly(s: string, lo: nat, hi: nat, r: PortRange)
    requires WritesRange(s, lo, hi) && ToRange(Some(s)) == Ok(r)
    ensures (forall port: nat | port < 0x1_0000 :: PortsCover(r, port) <==> WrittenPortsCover(Some(s), port))
       <==> (hi < TWO_TO_THE_32
             || (lo < 0x1_0000 && r.to.Some? && r.to.value >= 0xFFFF)
             || (lo >= 0x1_0000 && r.from.Some? && r.to.Some?
                 && (r.from.value >= 0x1_0000 || r.to.value < r.from.value)))
  {
    hide ToRange, WrittenPortsCover, Writes, ToUint32;
    WrittenRangeParses(s, lo, hi);
    RangeIsAscending(s, lo, hi);
    WrapIsInvisibleExactly(lo, hi);
    forall port: nat ensures WrittenPortsCover(Some(s), port) <==> Between(lo, hi, port) {
      RangeCoversItsPorts(s, lo, hi, port);
    }
    assert forall port: nat :: PortsCover(r, port) <==> Between(ToUint32(lo), ToUint32(hi), port);
    assert forall port | 0 <= port < 0x1_0000 :: Between(lo, hi, port) <==> WrittenPortsCover(Some(s), port);
  }

  lemma RangeKeepsMembers(text: string, remote: Addr)
    requires ParseCIDR(text).Some?
    ensures var p := ParseCIDR(text).value; Contains(p.net, remote) <==> SharesPrefix(p.addr, remote, p.net.len)
  {
    var p := ParseCIDR(text).value;
    MaskingKeepsMembers(p.addr, p.net.len, remote);
  }

  lemma DefaultRangeKeepsMembers(remote: Address)
    ensures WrittenRangeHolds(None, remote) <==> remote.V4? && Contains(ANYWHERE, remote.addr)
  {
    if remote.V4? {
      MaskingKeepsMembers(ANYWHERE.base, 0, remote.addr);
    }
  }

  /** A declared rule and a stored rule do the same to every packet. */
  ghost predicate Agree(a: SpecRule, b: Rule) {
    && b.action == (if a.action == "Drop" then Drop else Accept)
    && forall p: Packet :: Matches(b, p) <==> SpecMatches(a, p)
  }

  /** A rule whose meaning the cut to 32 bits cannot touch: the numbers fit, or
      the rule is about traffic without ports. */
  predicate KeepsItsMeaning(rule: SpecRule) {
    PortsFit(rule.ports) || rule.protocol == Some("ICMP")
  }

  /** Compiling a rule, canonical range or not, keeps its meaning exactly when
      its port numbers fit or do not matter. */
  lemma CompiledRuleAgrees(position: Port, rule: SpecRule, direction: Direction, out: Rule)
    requires CompileRule(position, rule, direction) == Ok(out)
    ensures Agree(rule, out) <==> KeepsItsMeaning(rule)
  {
    hide ToRange, ParseCIDR, PortsFit, WrittenPortsCover, WrittenRangeHolds, Contains, PortsCover;
    if KeepsItsMeaning(rule) {
      forall p: Packet ensures Matches(out, p) <==> SpecMatches(rule, p) {
        if PortsFit(rule.ports) { PortsKeepMeaning(rule, out.ports, p.port); }
        RangeKeepsMeaningOf(rule, out.net, p.remote);
      }
    } else {
      var port := LostPort(rule.ports, out.ports);
      var remote := SomeMember(rule);
      var p := Packet(if out.protocol == UDP then UdpTraffic else TcpTraffic, remote, port);
      RangeKeepsMeaningOf(rule, out.net, remote);
      assert SpecMatches(rule, p) && !Matches(out, p);
    }
  }

  /** Every range that parses holds some address. */
  lemma SomeMember(rule: SpecRule) returns (remote: Address)
    requires ParseCIDR(RangeText(rule)).Some?
    ensures WrittenRangeHolds(rule.ipRange, remote)
  {
    hide ParseCIDR;
    remote := V4(ParseCIDR(RangeText(rule)).value.addr);
  }

  lemma RangeKeepsMeaningOf(rule: SpecRule, net: Net, remote: Address)
    requires ParseCIDR(RangeText(rule)).Some? && net == ParseCIDR(RangeText(rule)).value.net
    ensures remote.V4? && Contains(net, remote.addr) <==> WrittenRangeHolds(rule.ipRange, remote)
  {
    AnywhereIsCanonical();
    DefaultRangeKeepsMembers(remote);
    if remote.V4? { RangeKeepsMembers(RangeText(rule), remote.addr); }
  }

  /** A stored rule that compares equal has the declared meaning, whoever stored
      it, under the same condition. */
  lemma AcceptedRuleAgrees(rule: SpecRule, stored: Rule)
    requires CompareRule(rule, stored) == Ok(true)
    ensures Agree(rule, stored) <==> KeepsItsMeaning(rule)
  {
    hide CompareRule, CompileRule, KeepsItsMeaning, Matches, SpecMatches;
    AcceptedIsCompiled(rule, stored);
    var compiled := WithMaskedNet(stored);
    CompiledRuleAgrees(stored.position, rule, stored.direction, compiled);
    forall p: Packet ensures Matches(stored, p) <==> Matches(compiled, p) {
      MaskingKeepsMatches(stored, p);
    }
  }

  function WithMaskedNet(rule: Rule): Rule {
    rule.(net := Net(MaskAddr(rule.net.base, rule.net.len), rule.net.len))
  }

  /** What compares equal is what compiling would store, up to bits behind the prefix. */
  lemma AcceptedIsCompiled(rule: SpecRule, stored: Rule)
    requires CompareRule(rule, stored) == Ok(true)
    ensures CompileRule(stored.position, rule, stored.direction) == Ok(WithMaskedNet(stored))
  {
    hide ToRange, ParseCIDR, PrintNet, MaskAddr;
    PrintedNetParses(stored.net);
  }

  lemma MaskingKeepsMatches(rule: Rule, p: Packet)
    ensures Matches(rule, p) <==> Matches(WithMaskedNet(rule), p)
  {
    hide Contains, MaskAddr, PortsCover;
    if p.remote.V4? {
      MaskingKeepsMembers(rule.net.base, rule.net.len, p.remote.addr);
      ContainsMeansSharedPrefix(rule.net, p.remote.addr);
    }
  }

  lemma {:induction false} AgreeingRulesDecideAlike(rules: seq<SpecRule>, stored: seq<Rule>, byDefault: Action,
      p: Packet)
    requires |rules| == |stored|
    requires forall i | 0 <= i < |rules| :: Agree(rules[i], stored[i])
    ensures Decide(stored, byDefault, p) == SpecDecideRules(rules, byDefault, p)
  {
    if rules != [] {
      assert Agree(rules[0], stored[0]);
      forall i | 0 <= i < |rules| - 1 ensures Agree(rules[1..][i], stored[1..][i]) {
        assert Agree(rules[i + 1], stored[i + 1]);
      }
      AgreeingRulesDecideAlike(rules[1..], stored[1..], byDefault, p);
    }
  }

  /** How the rules of one direction can end up in the cloud after a pass: they
      were accepted by the comparison, or they were compiled and stored. */
  predicate InPlace(policy: Option<SpecPolicy>, direction: Direction, stored: seq<Rule>) {
    AllSame(RulesOf(policy), stored) || CompilesTo(RulesOf(policy), direction, stored)
  }

  /** Either way the cloud decides every packet as the declared policy does. */
  lemma PolicyMeaningIsPreserved(policy: Option<SpecPolicy>, direction: Direction, stored: seq<Rule>, byDefault: Action,
      p: Packet)
    requires InPlace(policy, direction, stored)
    requires DefaultPolicy(policy) == Ok(byDefault)
    requires forall i | 0 <= i < |RulesOf(policy)| :: KeepsItsMeaning(RulesOf(policy)[i])
    ensures Decide(stored, byDefault, p) == SpecDecide(policy, p)
  {
    var rules := RulesOf(policy);
    forall i | 0 <= i < |rules| ensures Agree(rules[i], stored[i]) {
      if AllSame(rules, stored) {
        AcceptedRuleAgrees(rules[i], stored[i]);
      } else {
        CompiledRuleAgrees(ToUint32(i + 1), rules[i], direction, stored[i]);
      }
    }
    AgreeingRulesDecideAlike(rules, stored, byDefault, p);
  }
}
