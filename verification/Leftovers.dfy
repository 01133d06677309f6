// Runs that end where one would not want them to: what the code leaves behind,
// and a deletion that hits somebody else.
module Leftovers {
  import opened Wrappers
  import opened MachineProtocol
  import T = MachineTeardown
  import opened Scope
  import opened Fleet

  // ---- One machine ----

  /** The run that starts fresh and sends these requests, each with success. */
  function RunOf(calls: seq<Call>): seq<Own> {
    if calls == [] then [INITIAL]
    else
      var before := RunOf(calls[..|calls| - 1]);
      before + [Apply(before[|before| - 1], calls[|calls| - 1])]
  }

  function EndOf(calls: seq<Call>): Own {
    var run := RunOf(calls);
    run[|run| - 1]
  }

  lemma TheStartRuns(cfg: Config)
    ensures IsRun(cfg, RunOf([])) && EndOf([]) == INITIAL
  {
    TheStartIsInvariant(cfg);
  }

  lemma OneMoreCall(cfg: Config, calls: seq<Call>, c: Call)
    requires IsRun(cfg, RunOf(calls)) && Allowed(cfg, EndOf(calls), c)
    ensures IsRun(cfg, RunOf(calls + [c])) && EndOf(calls + [c]) == Apply(EndOf(calls), c)
  {
    hide Invariant, Allowed, Apply, Step;
    var run := RunOf(calls);
    assert (calls + [c])[..|calls + [c]| - 1] == calls;
    assert RunOf(calls + [c]) == run + [Apply(EndOf(calls), c)];
    CallIsAStep(cfg, EndOf(calls), c);
  }

  lemma CallIsAStep(cfg: Config, o: Own, c: Call)
    requires Allowed(cfg, o, c)
    ensures Step(cfg, o, Apply(o, c))
  {
    hide Allowed, Apply;
  }

  const PUBLIC_WORKER := Config(true, false, false)

  const WORKER := Config(false, true, false)

  const CONTROL_NODE := Config(false, true, true)

  /** A pass makes the public IP and ends before the server; then the machine is
      deleted. There is no server, so Delete succeeds and leaves the IP. */
  lemma AnIPIsLeft() returns (run: seq<Own>)
    ensures IsRun(PUBLIC_WORKER, run) && run[0] == INITIAL
    ensures var end := run[|run| - 1]; end.mine.teardown && end.mine.servers == map[] && end.mine.ips != map[]
  {
    var create := CreateIP(1, "192.0.2.1");
    TheStartRuns(PUBLIC_WORKER);
    OneMoreCall(PUBLIC_WORKER, [], create);
    OneMoreCall(PUBLIC_WORKER, [create], BeginTeardown);
    run := RunOf([create] + [BeginTeardown]);
    StartsFresh([create] + [BeginTeardown]);
    assert 1 in EndOf([] + [create]).mine.ips;
    assert [] + [create] == [create];
  }

  lemma {:induction false} StartsFresh(calls: seq<Call>)
    ensures |RunOf(calls)| == |calls| + 1 && RunOf(calls)[0] == INITIAL
  {
    if calls != [] {
      StartsFresh(calls[..|calls| - 1]);
    }
  }

  /** A deletion detaches the boot volume and ends there; the next one finds no
      boot volume on the server and deletes the server alone. */
  lemma ABootVolumeIsLeft() returns (run: seq<Own>)
    ensures IsRun(WORKER, run) && run[0] == INITIAL
    ensures var end := run[|run| - 1]; end.mine.teardown && end.mine.servers == map[] && end.mine.volumes == {7}
  {
    var one: seq<Call> := [CreateServer(1, None, 7)];
    var two, three := one + [BeginTeardown], one + [BeginTeardown] + [DetachVolume(7)];
    VolumeSteps();
    TheStartRuns(WORKER);
    hide Allowed, Apply, IsRun, RunOf, EndOf;
    assert [] + one == one;
    OneMoreCall(WORKER, [], one[0]);
    OneMoreCall(WORKER, one, BeginTeardown);
    OneMoreCall(WORKER, two, DetachVolume(7));
    OneMoreCall(WORKER, three, DeleteServer(1));
    run := RunOf(three + [DeleteServer(1)]);
    StartsFresh(three + [DeleteServer(1)]);
    IsTheEnd(three + [DeleteServer(1)]);
  }

  lemma IsTheEnd(calls: seq<Call>)
    ensures |RunOf(calls)| > 0 && RunOf(calls)[|RunOf(calls)| - 1] == EndOf(calls)
  {
  }

  /** One stopped server with these volumes; volume 7 exists. */
  function Standing(vols: map<string, Volume>, teardown: bool): Own {
    Own(Mine(map[], map[1 := Server(Stopped, None, None, 0, false, vols)], map[], {7}, teardown, {}), {}, map[], false)
  }

  lemma VolumeSteps()
    ensures var boot := map["0" := Volume(7, true)];
            && Allowed(WORKER, INITIAL, CreateServer(1, None, 7))
                && Apply(INITIAL, CreateServer(1, None, 7)) == Standing(boot, false)
            && Allowed(WORKER, Standing(boot, false), BeginTeardown)
                && Apply(Standing(boot, false), BeginTeardown) == Standing(boot, true)
            && Allowed(WORKER, Standing(boot, true), DetachVolume(7))
                && Apply(Standing(boot, true), DetachVolume(7)) == Standing(map[], true)
    ensures Allowed(WORKER, Standing(map[], true), DeleteServer(1))
    ensures var end := Apply(Standing(map[], true), DeleteServer(1));
            end.mine.teardown && end.mine.servers == map[] && end.mine.volumes == {7}
  {
    var boot := map["0" := Volume(7, true)];
    ServerIsMade(WORKER);
    TeardownBegins(boot);
    BootIsDetached(boot);
    BareServerGoes();
  }

  lemma ServerIsMade(cfg: Config)
    requires !cfg.needsIP
    ensures Allowed(cfg, INITIAL, CreateServer(1, None, 7))
    ensures Apply(INITIAL, CreateServer(1, None, 7)) == Standing(map["0" := Volume(7, true)], false)
  {
  }

  lemma TeardownBegins(boot: map<string, Volume>)
    requires forall k | k in boot :: boot[k].boot
    ensures Allowed(WORKER, Standing(boot, false), BeginTeardown)
              && Apply(Standing(boot, false), BeginTeardown) == Standing(boot, true)
  {
    NoDataVolumes(Standing(boot, false).mine, Server(Stopped, None, None, 0, false, boot));
  }

  lemma BootIsDetached(boot: map<string, Volume>)
    requires boot == map["0" := Volume(7, true)]
    ensures Allowed(WORKER, Standing(boot, true), DetachVolume(7))
              && Apply(Standing(boot, true), DetachVolume(7)) == Standing(map[], true)
  {
    assert Detached(boot, 7) == map[];
    assert Standing(boot, true).mine.servers[1] == Server(Stopped, None, None, 0, false, boot);
    hide Detached;
  }

  lemma BareServerGoes()
    ensures Allowed(WORKER, Standing(map[], true), DeleteServer(1))
    ensures var end := Apply(Standing(map[], true), DeleteServer(1));
            end.mine.teardown && end.mine.servers == map[] && end.mine.volumes == {7}
  {
  }

  lemma NoDataVolumes(mine: Mine, sv: Server)
    requires mine.servers == map[1 := sv] && forall k | k in sv.volumes :: sv.volumes[k].boot
    ensures DataVolumes(mine) == {}
  {
  }

  /** A pass makes the server of a control-plane node and ends before the NIC;
      then the machine is deleted: no deletion will ever succeed. */
  lemma ANodeIsStuck() returns (run: seq<Own>)
    ensures IsRun(CONTROL_NODE, run) && run[0] == INITIAL
    ensures T.LacksItsNic(CONTROL_NODE, run[|run| - 1]) && !SomeTerminating(run[|run| - 1].mine)
  {
    var create := CreateServer(1, None, 7);
    TheStartRuns(CONTROL_NODE);
    OneMoreCall(CONTROL_NODE, [], create);
    run := RunOf([] + [create]);
    StartsFresh([] + [create]);
    assert 1 in EndOf([] + [create]).mine.servers;
  }

  /** A pass makes the NIC too and ends before an address is assigned: until one
      is, no deletion succeeds. */
  lemma ANodeWaitsForItsAddress() returns (run: seq<Own>)
    ensures IsRun(CONTROL_NODE, run) && run[0] == INITIAL
    ensures var end := run[|run| - 1];
            T.Standing(CONTROL_NODE, end) && T.Unaddressed(end.mine) && !T.LacksItsNic(CONTROL_NODE, end)
  {
    var one: seq<Call> := [CreateServer(1, None, 7)];
    var two := one + [CreateNic(1, 1)];
    ServerIsMade(CONTROL_NODE);
    NicIsMade();
    TheStartRuns(CONTROL_NODE);
    hide Allowed, Apply, IsRun, RunOf, EndOf;
    assert [] + one == one;
    OneMoreCall(CONTROL_NODE, [], one[0]);
    OneMoreCall(CONTROL_NODE, one, CreateNic(1, 1));
    run := RunOf(two);
    StartsFresh(two);
    IsTheEnd(two);
  }

  lemma NicIsMade()
    ensures var before := Standing(map["0" := Volume(7, true)], false);
            Allowed(CONTROL_NODE, before, CreateNic(1, 1))
            && var end := Apply(before, CreateNic(1, 1));
               T.Standing(CONTROL_NODE, end) && T.Unaddressed(end.mine) && !T.LacksItsNic(CONTROL_NODE, end)
  {
    var before := Standing(map["0" := Volume(7, true)], false);
    var end := Apply(before, CreateNic(1, 1));
    assert end.mine.servers == before.mine.servers && 1 in end.mine.servers && 1 in end.mine.nics;
    assert end.mine.nics == map[1 := Nic(1, None)];
  }

  // ---- Two machines and one address ----

  const ADDRESS := "10.0.0.2"

  function FleetRunOf(start: Fleet, acts: seq<Action>): seq<Fleet> {
    if acts == [] then [start]
    else
      var before := FleetRunOf(start, acts[..|acts| - 1]);
      before + [Act(before[|before| - 1], acts[|acts| - 1])]
  }

  function FleetEndOf(start: Fleet, acts: seq<Action>): Fleet {
    var run := FleetRunOf(start, acts);
    run[|run| - 1]
  }

  lemma OneMoreAction(cfgs: Configs, start: Fleet, acts: seq<Action>, act: Action)
    requires FleetRun(cfgs, FleetRunOf(start, acts)) && Can(cfgs, FleetEndOf(start, acts), act)
    ensures FleetRun(cfgs, FleetRunOf(start, acts + [act]))
              && FleetEndOf(start, acts + [act]) == Act(FleetEndOf(start, acts), act)
  {
    hide FleetInvariant, Can, Act;
    var run := FleetRunOf(start, acts);
    assert (acts + [act])[..|acts + [act]| - 1] == acts;
    assert FleetRunOf(start, acts + [act]) == run + [Act(FleetEndOf(start, acts), act)];
    assert FleetStep(cfgs, run[|run| - 1], Act(FleetEndOf(start, acts), act));
  }

  /** A control-plane node in some stage of its life. */
  function Node(power: Power, init: bool, started: bool): Server {
    Server(power, None, if init then Some(CloudInit(ADDRESS, 1)) else None, if init then 1 else 0, started,
           map["0" := Volume(7, true)])
  }

  function NodeMine(sv: Server, nics: map<nat, Nic>, teardown: bool): Mine {
    Mine(map[], map[1 := sv], nics, {7}, teardown, {})
  }

  const GONE := Mine(map[], map[], map[], {}, true, {})

  const WAITING: map<nat, Nic> := map[1 := Nic(1, None)]

  const ASSIGNED: map<nat, Nic> := map[1 := Nic(1, Some(ADDRESS))]

  /** The fleet with one machine at work beside others that hold no address. */
  function With(others: map<string, Mine>, m: string, mine: Mine, pool: set<string>): Fleet {
    Fleet(others[m := mine], pool, map[], true)
  }

  ghost predicate Idle(cfgs: Configs, others: map<string, Mine>, m: string) {
    m !in others && m in cfgs && cfgs[m] == CONTROL_NODE && forall n | n in others :: Addresses(others[n]) == {}
  }

  /** One action leads from one state to the next. */
  ghost predicate Leads(cfgs: Configs, f: Fleet, act: Action, g: Fleet) {
    Can(cfgs, f, act) && Act(f, act) == g
  }

  lemma AddressesOfNodes()
    ensures forall sv, teardown ::
              Addresses(NodeMine(sv, map[], teardown)) == {} && Addresses(NodeMine(sv, WAITING, teardown)) == {}
    ensures forall sv, teardown :: Addresses(NodeMine(sv, ASSIGNED, teardown)) == {ADDRESS}
    ensures Addresses(GONE) == {} && Addresses(INITIAL.mine) == {}
  {
    forall sv, teardown ensures Addresses(NodeMine(sv, ASSIGNED, teardown)) == {ADDRESS} {
      var mine := NodeMine(sv, ASSIGNED, teardown);
      assert mine.nics[1].address == Some(ADDRESS);
    }
  }

  /** A request in a state of the kind above. */
  lemma NodeRequest(cfgs: Configs, others: map<string, Mine>, m: string, mine: Mine, pool: set<string>, c: Call)
    requires Idle(cfgs, others, m) && pool <= Addresses(mine) && !c.CreateIP? && !c.CreateAcl? && !c.UpdateAcl?
              && !c.DeleteAcl?
    requires Allowed(CONTROL_NODE, Own(mine, pool, map[], true), c)
    ensures Leads(cfgs, With(others, m, mine, pool), Request(m, c),
              With(others, m, ApplyMine(mine, c), ApplyPool(pool, c)))
  {
    hide Allowed, Addresses, ApplyMine;
    var f := With(others, m, mine, pool);
    assert View(f, m) == Own(mine, pool, map[], true);
    assert others[m := mine][m := ApplyMine(mine, c)] == others[m := ApplyMine(mine, c)];
  }

  lemma NodeEvent(cfgs: Configs, others: map<string, Mine>, m: string, mine: Mine, pool: set<string>, e: Event)
    requires Idle(cfgs, others, m) && pool <= Addresses(mine) && !e.BalancerGone? && !e.BalancerBack?
    requires MayHappen(Own(mine, pool, map[], true), e) && (e.Assign? ==> Addresses(mine) == {})
    ensures Leads(cfgs, With(others, m, mine, pool), Occur(m, e), With(others, m, HappenMine(mine, e), pool))
  {
    hide MayHappen, Addresses, HappenMine;
    var f := With(others, m, mine, pool);
    assert View(f, m) == Own(mine, pool, map[], true);
    assert others[m := mine][m := HappenMine(mine, e)] == others[m := HappenMine(mine, e)];
    if e.Assign? {
      assert !Holder(f, e.address);
    }
  }

  lemma Go(cfgs: Configs, start: Fleet, acts: seq<Action>, act: Action, f: Fleet, g: Fleet)
    requires FleetRun(cfgs, FleetRunOf(start, acts)) && FleetEndOf(start, acts) == f && Leads(cfgs, f, act, g)
    ensures FleetRun(cfgs, FleetRunOf(start, acts + [act])) && FleetEndOf(start, acts + [act]) == g
  {
    hide FleetRun, FleetRunOf, FleetEndOf, Can, Act;
    OneMoreAction(cfgs, start, acts, act);
  }

  lemma NodeAppears(cfgs: Configs, others: map<string, Mine>, m: string)
    requires Idle(cfgs, others, m)
    ensures Leads(cfgs, Fleet(others, {}, map[], true), NewMachine(m), With(others, m, INITIAL.mine, {}))
  {
  }

  lemma NodeIsMade(cfgs: Configs, others: map<string, Mine>, m: string)
    requires Idle(cfgs, others, m)
    ensures Leads(cfgs, With(others, m, INITIAL.mine, {}), Request(m, CreateServer(1, None, 7)),
                  With(others, m, NodeMine(Node(Stopped, false, false), map[], false), {}))
    ensures Leads(cfgs, With(others, m, NodeMine(Node(Stopped, false, false), map[], false), {}),
              Request(m, CreateNic(1, 1)),
                  With(others, m, NodeMine(Node(Stopped, false, false), WAITING, false), {}))
  {
    hide Idle, Leads;
    assert ApplyMine(INITIAL.mine, CreateServer(1, None, 7)) == NodeMine(Node(Stopped, false, false), map[], false)
        && ApplyPool({}, CreateServer(1, None, 7)) == {};
    NodeRequest(cfgs, others, m, INITIAL.mine, {}, CreateServer(1, None, 7));
    assert ApplyMine(NodeMine(Node(Stopped, false, false), map[], false), CreateNic(1, 1)) ==
        NodeMine(Node(Stopped, false, false), WAITING, false) && ApplyPool({}, CreateNic(1, 1)) == {};
    NodeRequest(cfgs, others, m, NodeMine(Node(Stopped, false, false), map[], false), {}, CreateNic(1, 1));
  }

  lemma NodeJoins(cfgs: Configs, others: map<string, Mine>, m: string)
    requires Idle(cfgs, others, m)
    ensures Leads(cfgs, With(others, m, NodeMine(Node(Stopped, false, false), WAITING, false), {}),
              Occur(m, Assign(1, ADDRESS)),
                  With(others, m, NodeMine(Node(Stopped, false, false), ASSIGNED, false), {}))
    ensures Leads(cfgs, With(others, m, NodeMine(Node(Stopped, false, false), ASSIGNED, false), {}),
              Request(m, AddPool(ADDRESS)),
                  With(others, m, NodeMine(Node(Stopped, false, false), ASSIGNED, false), {ADDRESS}))
  {
    hide Idle, Leads, Addresses;
    AddressesOfNodes();
    var sv := Node(Stopped, false, false);
    assert WAITING[1 := Nic(1, Some(ADDRESS))] == ASSIGNED;
    assert HappenMine(NodeMine(sv, WAITING, false), Assign(1, ADDRESS)) == NodeMine(sv, ASSIGNED, false);
    NodeEvent(cfgs, others, m, NodeMine(sv, WAITING, false), {}, Assign(1, ADDRESS));
    AssignedIsNodeIP(sv, false);
    assert ApplyMine(NodeMine(sv, ASSIGNED, false), AddPool(ADDRESS)) == NodeMine(sv, ASSIGNED, false)
        && ApplyPool({}, AddPool(ADDRESS)) == {ADDRESS};
    NodeRequest(cfgs, others, m, NodeMine(sv, ASSIGNED, false), {}, AddPool(ADDRESS));
  }

  lemma AssignedIsNodeIP(sv: Server, teardown: bool)
    ensures IsNodeIP(CONTROL_NODE, NodeMine(sv, ASSIGNED, teardown), ADDRESS)
  {
    assert 1 in NodeMine(sv, ASSIGNED, teardown).nics;
  }

  lemma NodeStarts(cfgs: Configs, others: map<string, Mine>, m: string)
    requires Idle(cfgs, others, m)
    ensures Leads(cfgs, With(others, m, NodeMine(Node(Stopped, false, false), ASSIGNED, false), {ADDRESS}),
              Request(m, SetCloudInit(1, CloudInit(ADDRESS, 1))),
                  With(others, m, NodeMine(Node(Stopped, true, false), ASSIGNED, false), {ADDRESS}))
    ensures Leads(cfgs, With(others, m, NodeMine(Node(Stopped, true, false), ASSIGNED, false), {ADDRESS}),
              Request(m, PowerOn(1)),
                  With(others, m, NodeMine(Node(Starting, true, true), ASSIGNED, false), {ADDRESS}))
  {
    hide Idle, Leads, Addresses, IsNodeIP;
    AddressesOfNodes();
    AssignedIsNodeIP(Node(Stopped, false, false), false);
    AssignedIsNodeIP(Node(Stopped, true, false), false);
    assert ApplyMine(NodeMine(Node(Stopped, false, false), ASSIGNED, false), SetCloudInit(1, CloudInit(ADDRESS, 1))) ==
        NodeMine(Node(Stopped, true, false), ASSIGNED, false)
        && ApplyPool({ADDRESS}, SetCloudInit(1, CloudInit(ADDRESS, 1))) == {ADDRESS};
    NodeRequest(cfgs, others, m, NodeMine(Node(Stopped, false, false), ASSIGNED, false), {ADDRESS},
        SetCloudInit(1, CloudInit(ADDRESS, 1)));
    assert ApplyMine(NodeMine(Node(Stopped, true, false), ASSIGNED, false), PowerOn(1)) ==
        NodeMine(Node(Starting, true, true), ASSIGNED, false) && ApplyPool({ADDRESS}, PowerOn(1)) == {ADDRESS};
    NodeRequest(cfgs, others, m, NodeMine(Node(Stopped, true, false), ASSIGNED, false), {ADDRESS}, PowerOn(1));
  }

  lemma NodeLeaves(cfgs: Configs, others: map<string, Mine>, m: string)
    requires Idle(cfgs, others, m)
    ensures Leads(cfgs, With(others, m, NodeMine(Node(Starting, true, true), ASSIGNED, false), {ADDRESS}),
              Request(m, BeginTeardown),
                  With(others, m, NodeMine(Node(Starting, true, true), ASSIGNED, true), {ADDRESS}))
    ensures Leads(cfgs, With(others, m, NodeMine(Node(Starting, true, true), ASSIGNED, true), {ADDRESS}),
              Request(m, RemovePool(ADDRESS)),
                  With(others, m, NodeMine(Node(Starting, true, true), ASSIGNED, true), {}))
  {
    hide Idle, Leads, Addresses;
    AddressesOfNodes();
    var sv := Node(Starting, true, true);
    NoDataVolumes(NodeMine(sv, ASSIGNED, false), sv);
    assert ApplyMine(NodeMine(sv, ASSIGNED, false), BeginTeardown) == NodeMine(sv, ASSIGNED, true);
    hide DataVolumes;
    NodeRequest(cfgs, others, m, NodeMine(sv, ASSIGNED, false), {ADDRESS}, BeginTeardown);
    assert ApplyPool({ADDRESS}, RemovePool(ADDRESS)) == {};
    NodeRequest(cfgs, others, m, NodeMine(sv, ASSIGNED, true), {ADDRESS}, RemovePool(ADDRESS));
  }

  lemma NodeVanishes(cfgs: Configs, others: map<string, Mine>, m: string)
    requires Idle(cfgs, others, m)
    ensures Leads(cfgs, With(others, m, NodeMine(Node(Starting, true, true), ASSIGNED, true), {}),
              Request(m, Terminate(1)),
                  With(others, m, NodeMine(Node(Terminating, true, true), ASSIGNED, true), {}))
    ensures Leads(cfgs, With(others, m, NodeMine(Node(Terminating, true, true), ASSIGNED, true), {}),
              Occur(m, Vanishes(1)), With(others, m, GONE, {}))
  {
    hide Idle, Leads, Addresses;
    assert ApplyMine(NodeMine(Node(Starting, true, true), ASSIGNED, true), Terminate(1)) ==
        NodeMine(Node(Terminating, true, true), ASSIGNED, true) && ApplyPool({}, Terminate(1)) == {};
    NodeRequest(cfgs, others, m, NodeMine(Node(Starting, true, true), ASSIGNED, true), {}, Terminate(1));
    var mine := NodeMine(Node(Terminating, true, true), ASSIGNED, true);
    assert AttachedVolumes(mine.servers[1]) == {7} by { assert mine.servers[1].volumes["0"].id == 7; }
    assert HappenMine(mine, Vanishes(1)) == GONE;
    NodeEvent(cfgs, others, m, mine, {}, Vanishes(1));
  }

  const ONE := "one"

  const TWO := "two"

  const NODES: Configs := map[ONE := CONTROL_NODE, TWO := CONTROL_NODE]

  const EMPTY := Fleet(map[], {}, map[], false)

  /** A new node gets the address and joins the pool. */
  lemma Joining(acts: seq<Action>, others: map<string, Mine>, m: string) returns (more: seq<Action>)
    requires Idle(NODES, others, m) && FleetRun(NODES, FleetRunOf(EMPTY, acts))
              && FleetEndOf(EMPTY, acts) == Fleet(others, {}, map[], true)
    ensures FleetRun(NODES, FleetRunOf(EMPTY, more))
    ensures FleetEndOf(EMPTY, more) ==
              With(others, m, NodeMine(Node(Stopped, false, false), ASSIGNED, false), {ADDRESS})
  {
    hide Idle, FleetRun, FleetRunOf, FleetEndOf, Leads;
    NodeAppears(NODES, others, m);
    NodeIsMade(NODES, others, m);
    NodeJoins(NODES, others, m);
    var sv := Node(Stopped, false, false);
    var s1, s2 := With(others, m, INITIAL.mine, {}), With(others, m, NodeMine(sv, map[], false), {});
    var s3, s4 := With(others, m, NodeMine(sv, WAITING, false), {}), With(others, m, NodeMine(sv, ASSIGNED, false), {});
    more := acts;
    Go(NODES, EMPTY, more, NewMachine(m), Fleet(others, {}, map[], true), s1);
    more := more + [NewMachine(m)];
    Go(NODES, EMPTY, more, Request(m, CreateServer(1, None, 7)), s1, s2);
    more := more + [Request(m, CreateServer(1, None, 7))];
    Go(NODES, EMPTY, more, Request(m, CreateNic(1, 1)), s2, s3);
    more := more + [Request(m, CreateNic(1, 1))];
    Go(NODES, EMPTY, more, Occur(m, Assign(1, ADDRESS)), s3, s4);
    more := more + [Occur(m, Assign(1, ADDRESS))];
    Go(NODES, EMPTY, more, Request(m, AddPool(ADDRESS)), s4, With(others, m, NodeMine(sv, ASSIGNED, false), {ADDRESS}));
    more := more + [Request(m, AddPool(ADDRESS))];
  }

  /** A node in the pool is started, taken out, terminated, and vanishes. */
  lemma NodeGoes(acts: seq<Action>, others: map<string, Mine>, m: string) returns (more: seq<Action>)
    requires Idle(NODES, others, m) && FleetRun(NODES, FleetRunOf(EMPTY, acts))
    requires FleetEndOf(EMPTY, acts) ==
              With(others, m, NodeMine(Node(Stopped, false, false), ASSIGNED, false), {ADDRESS})
    ensures FleetRun(NODES, FleetRunOf(EMPTY, more)) && FleetEndOf(EMPTY, more) == With(others, m, GONE, {})
  {
    hide Idle, FleetRun, FleetRunOf, FleetEndOf, Leads;
    NodeStarts(NODES, others, m);
    NodeLeaves(NODES, others, m);
    NodeVanishes(NODES, others, m);
    var s0 := With(others, m, NodeMine(Node(Stopped, false, false), ASSIGNED, false), {ADDRESS});
    var s1 := With(others, m, NodeMine(Node(Stopped, true, false), ASSIGNED, false), {ADDRESS});
    var s2 := With(others, m, NodeMine(Node(Starting, true, true), ASSIGNED, false), {ADDRESS});
    var s3 := With(others, m, NodeMine(Node(Starting, true, true), ASSIGNED, true), {ADDRESS});
    var s4 := With(others, m, NodeMine(Node(Starting, true, true), ASSIGNED, true), {});
    var s5 := With(others, m, NodeMine(Node(Terminating, true, true), ASSIGNED, true), {});
    more := acts;
    Go(NODES, EMPTY, more, Request(m, SetCloudInit(1, CloudInit(ADDRESS, 1))), s0, s1);
    more := more + [Request(m, SetCloudInit(1, CloudInit(ADDRESS, 1)))];
    Go(NODES, EMPTY, more, Request(m, PowerOn(1)), s1, s2);
    more := more + [Request(m, PowerOn(1))];
    Go(NODES, EMPTY, more, Request(m, BeginTeardown), s2, s3);
    more := more + [Request(m, BeginTeardown)];
    Go(NODES, EMPTY, more, Request(m, RemovePool(ADDRESS)), s3, s4);
    more := more + [Request(m, RemovePool(ADDRESS))];
    Go(NODES, EMPTY, more, Request(m, Terminate(1)), s4, s5);
    more := more + [Request(m, Terminate(1))];
    Go(NODES, EMPTY, more, Occur(m, Vanishes(1)), s5, With(others, m, GONE, {}));
    more := more + [Occur(m, Vanishes(1))];
  }

  /** A retried deletion of machine one has read the node address, then the
      server vanishes and the address goes to machine two, which joins the pool.
      The protocol lets machine one remove it still, and then machine two is out. */
  lemma APoolPlaceIsTaken() returns (run: seq<Fleet>)
    ensures FleetRun(NODES, run) && run[0] == EMPTY
    ensures var f := run[|run| - 1];
            && ONE in f.machines && TWO in f.machines && TWO != ONE
            && Allowed(NODES[ONE], View(f, ONE), RemovePool(ADDRESS)) && !Fair(f, ONE, RemovePool(ADDRESS))
            && ADDRESS in View(f, TWO).pooled
            && ADDRESS !in View(Act(f, Request(ONE, RemovePool(ADDRESS))), TWO).pooled
  {
    DifferentNames();
    AddressesOfNodes();
    NothingRuns();
    hide FleetRun, FleetRunOf, FleetEndOf, Addresses;
    var acts := [LoadBalancerBack];
    var joined := Joining(acts, map[], ONE);
    var left := NodeGoes(joined, map[], ONE);
    var others := map[ONE := GONE];
    assert With(map[], ONE, GONE, {}) == Fleet(others, {}, map[], true);
    var all := Joining(left, others, TWO);
    run := FleetRunOf(EMPTY, all);
    RunEnds(all);
    var f := run[|run| - 1];
    assert f == With(others, TWO, NodeMine(Node(Stopped, false, false), ASSIGNED, false), {ADDRESS});
    assert ONE in f.machines && f.machines[ONE] == GONE;
    assert ADDRESS in Addresses(f.machines[TWO]);
  }

  lemma DifferentNames()
    ensures ONE != TWO && Idle(NODES, map[], ONE) && Idle(NODES, map[ONE := GONE], TWO)
  {
    assert ONE[0] != TWO[0];
    assert Addresses(GONE) == {};
    var one, two := ONE, TWO;
    var nodes: Configs := map[one := CONTROL_NODE, two := CONTROL_NODE];
    assert nodes == NODES && nodes[one] == CONTROL_NODE && nodes[two] == CONTROL_NODE;
    var others: map<string, Mine> := map[one := GONE];
    assert others[one] == GONE && two !in others;
  }

  lemma NothingRuns()
    ensures FleetRun(NODES, FleetRunOf(EMPTY, [LoadBalancerBack]))
              && FleetEndOf(EMPTY, [LoadBalancerBack]) == Fleet(map[], {}, map[], true)
  {
    assert FleetRunOf(EMPTY, []) == [EMPTY];
    assert FleetInvariant(NODES, EMPTY);
    assert [] + [LoadBalancerBack] == [LoadBalancerBack];
    OneMoreAction(NODES, EMPTY, [], LoadBalancerBack);
  }

  lemma {:induction false} RunEnds(acts: seq<Action>)
    ensures |FleetRunOf(EMPTY, acts)| == |acts| + 1 && FleetRunOf(EMPTY, acts)[0] == EMPTY
    ensures FleetEndOf(EMPTY, acts) == FleetRunOf(EMPTY, acts)[|acts|]
  {
    if acts != [] {
      RunEnds(acts[..|acts| - 1]);
    }
  }
}
