// The cloud as one machine's reconciler meets it: requests with three
// outcomes, lookups, and events between any two of them.
module MachineCloud {
  import opened Wrappers
  import opened Api
  import opened MachineProtocol

  datatype Failure =
    | ApiFailure | TooManyItems | NotFound | ServerGone | NetworkUnknown | PrivateIPNotFound | MachineHasNoIP
    | BootstrapNotReady

  // ---- What may change between two requests ----

  predicate SameButPower(a: Server, b: Server, teardown: bool) {
    && b == a.(power := b.power, volumes := b.volumes)
    && (a.power == Stopped ==> b.power == Stopped)
    && (a.power == Terminating <==> b.power == Terminating)
    && (teardown ==> b.volumes == a.volumes)
  }

  predicate Leaving(mine: Mine, s: nat) {
    s in mine.servers && mine.servers[s].power == Terminating
  }

  predicate ServersDrift(a: Mine, b: Mine) {
    && (forall s | s in b.servers :: s in a.servers && SameButPower(a.servers[s], b.servers[s], a.teardown))
    && (forall s | s in a.servers :: s in b.servers || Leaving(a, s))
  }

  predicate NicsDrift(a: Mine, b: Mine) {
    && (forall n | n in b.nics ::
        n in a.nics && b.nics[n].server == a.nics[n].server && (a.nics[n].address.Some? ==> b.nics[n] == a.nics[n]))
    && (forall n | n in a.nics :: n in b.nics || Leaving(a, a.nics[n].server))
  }

  /** Events only: the cloud and its users, no request of the machine. */
  predicate Drift(o: Own, p: Own) {
    && p.mine.ips == o.mine.ips && p.mine.teardown == o.mine.teardown && p.mine.keep == o.mine.keep
    && ServersDrift(o.mine, p.mine) && NicsDrift(o.mine, p.mine)
    && (o.mine.teardown && !SomeTerminating(o.mine) ==> p.mine.volumes == o.mine.volumes)
    && (p.pooled == o.pooled || (o.mine.teardown && p.pooled == {}))
    && (p.acls == o.acls || (o.mine.teardown && p.acls == map[]))
    && (o.lb && !o.mine.teardown ==> p.lb)
  }

  lemma DriftIsReflexive(o: Own)
    ensures Drift(o, o)
  {
  }

  lemma DriftIsTransitive(o: Own, p: Own, q: Own)
    requires Drift(o, p) && Drift(p, q)
    ensures Drift(o, q)
  {
    hide SameButPower, SomeTerminating;
    assert NicsDrift(o.mine, q.mine) by {
      assert forall s | Leaving(p.mine, s) :: Leaving(o.mine, s) by { LeavingDrifts(o.mine, p.mine); }
      hide Leaving, ServersDrift;
    }
    assert ServersDrift(o.mine, q.mine) by {
      LeavingDrifts(o.mine, p.mine);
      forall s | s in q.mine.servers
          ensures s in o.mine.servers && SameButPower(o.mine.servers[s], q.mine.servers[s], o.mine.teardown) {
        SameButPowerIsTransitive(o.mine.servers[s], p.mine.servers[s], q.mine.servers[s], o.mine.teardown);
      }
      hide Leaving, NicsDrift;
    }
    assert SomeTerminating(p.mine) ==>
        SomeTerminating(o.mine) by { LeavingDrifts(o.mine, p.mine); TerminatingIsLeaving(o.mine, p.mine); }
    hide ServersDrift, NicsDrift;
  }

  lemma SameButPowerIsTransitive(a: Server, b: Server, c: Server, teardown: bool)
    requires SameButPower(a, b, teardown) && SameButPower(b, c, teardown)
    ensures SameButPower(a, c, teardown)
  {
  }

  lemma LeavingDrifts(a: Mine, b: Mine)
    requires ServersDrift(a, b)
    ensures forall s | Leaving(b, s) :: Leaving(a, s)
  {
  }

  lemma TerminatingIsLeaving(a: Mine, b: Mine)
    requires forall s | Leaving(b, s) :: Leaving(a, s)
    ensures SomeTerminating(b) ==> SomeTerminating(a)
  {
    if s :| s in b.servers && b.servers[s].power == Terminating {
      assert Leaving(b, s);
    }
  }

  lemma EventsDrift(cfg: Config, o: Own, e: Event)
    requires Invariant(cfg, o) && MayHappen(o, e)
    ensures Drift(o, Happen(o, e))
  {
    hide Invariant, ServersDrift, NicsDrift;
    EventsDriftServers(o, e);
    EventsDriftNics(o, e);
    if e.Vanishes? { assert SomeTerminating(o.mine); }
    hide SomeTerminating;
  }

  lemma EventsDriftServers(o: Own, e: Event)
    requires MayHappen(o, e)
    ensures ServersDrift(o.mine, Happen(o, e).mine)
  {
  }

  lemma EventsDriftNics(o: Own, e: Event)
    requires MayHappen(o, e)
    ensures NicsDrift(o.mine, Happen(o, e).mine)
  {
  }

  ghost predicate Extends(before: seq<Own>, after: seq<Own>) {
    before <= after
  }

  lemma RunGrows(cfg: Config, run: seq<Own>, p: Own)
    requires IsRun(cfg, run) && Step(cfg, run[|run| - 1], p)
    ensures IsRun(cfg, run + [p])
  {
    hide Step, Invariant;
  }

  lemma AtMostOneCounts<T>(m: map<nat, T>)
    requires AtMostOne(m)
    ensures |m| <= 1
  {
    if i :| i in m {
      assert m.Keys == {i};
      assert |m| == |m.Keys|;
    } else {
      assert m == map[];
    }
  }

  // ---- What a lookup returns ----

  datatype PublicIP = PublicIP(id: nat, address: string, dynamic: bool)

  /** A server as the API lists it. */
  datatype Listed = Listed(id: nat, power: Power, publicIP: Option<PublicIP>, volumes: map<string, Volume>)

  predicate Shows(mine: Mine, l: Listed) {
    && l.id in mine.servers
    && var sv := mine.servers[l.id];
    && l.power == sv.power && l.volumes == sv.volumes && ShowsIP(mine, sv, l.publicIP)
  }

  predicate ShowsIP(mine: Mine, sv: Server, ip: Option<PublicIP>) {
    && (ip.Some? <==> sv.ip.Some?)
    && (ip.Some? ==>
        sv.ip == Some(ip.value.id) && ip.value.id in mine.ips
        && mine.ips[ip.value.id] == Ip(ip.value.address, ip.value.dynamic))
  }

  class MachineCloud {
    const cfg: Config
    var own: Own
    // Every state the machine's part has been in.
    ghost var log: seq<Own>
    // Requests and lookups that did not succeed.
    ghost var failures: nat

    ghost predicate Valid()
      reads this
    {
      Invariant(cfg, own) && IsRun(cfg, log) && log[|log| - 1] == own
    }

    constructor (cfg: Config)
      ensures Valid() && this.cfg == cfg && own == INITIAL
    {
      this.cfg := cfg;
      own := INITIAL;
      log := [INITIAL];
      TheStartIsInvariant(cfg);
    }

    /** Any number of events. */
    method Events()
      requires Valid()
      modifies this`own, this`log
      ensures Valid() && Extends(old(log), log) && Drift(old(own), own)
    {
      hide Invariant, IsRun, Step, MayHappen, Happen, Drift;
      DriftIsReflexive(own);
      var n: nat :| true;
      for i := 0 to n
        invariant Valid() && Extends(old(log), log) && Drift(old(own), own)
      {
        OneEvent(old(own));
      }
    }

    method OneEvent(ghost since: Own)
      requires Valid() && Drift(since, own)
      modifies this`own, this`log
      ensures Valid() && Extends(old(log), log) && Drift(since, own)
    {
      hide Invariant, IsRun, MayHappen, Happen, Drift, Allowed, Apply;
      var e: Event :| true;
      if MayHappen(own, e) {
        ghost var before := own;
        EventsKeepTheInvariant(cfg, own, e);
        EventsDrift(cfg, own, e);
        DriftIsTransitive(since, own, Happen(own, e));
        own := Happen(own, e);
        assert Step(cfg, before, own);
        RunGrows(cfg, log, own);
        log := log + [own];
      }
    }

    /** A lookup outside the machine's own part, or the rendering of its data. */
    method Ask() returns (ok: bool)
      modifies this`failures
      ensures failures == old(failures) + (if ok then 0 else 1)
    {
      var reply: Outcome := *;
      ok := reply == Success;
      failures := failures + (if ok then 0 else 1);
    }

    /** Sends one request that the protocol allows. */
    method Request(c: Call) returns (ok: bool)
      requires Valid() && Allowed(cfg, own, c)
      modifies this`own, this`log, this`failures
      ensures Valid() && Extends(old(log), log)
      ensures Drift(Apply(old(own), c), own) || (!ok && Drift(old(own), own))
      ensures failures == old(failures) + (if ok then 0 else 1)
    {
      hide Invariant, IsRun, MayHappen, Happen, Drift, Allowed, Apply;
      var outcome: Outcome := *;
      ghost var before := own;
      if outcome != NoEffect {
        RequestsKeepTheInvariant(cfg, own, c);
        own := Apply(own, c);
        assert Step(cfg, before, own);
        RunGrows(cfg, log, own);
        log := log + [own];
      }
      Events();
      ok := outcome == Success;
      failures := failures + (if ok then 0 else 1);
    }

    /** The teardown begins: from now on only Delete runs. */
    method BeginDelete()
      requires Valid()
      modifies this`own, this`log
      ensures Valid() && Extends(old(log), log)
      ensures own == Apply(old(own), BeginTeardown)
    {
      hide Invariant, IsRun, Apply;
      ghost var before := own;
      RequestsKeepTheInvariant(cfg, own, BeginTeardown);
      own := Apply(own, BeginTeardown);
      assert Allowed(cfg, before, BeginTeardown);
      assert Step(cfg, before, own);
      RunGrows(cfg, log, own);
      log := log + [own];
    }

    /** The terminate action; a server that is gone already is an error. */
    method RequestTerminate(server: nat) returns (r: Result<(), Failure>)
      requires Valid() && (server in own.mine.servers ==> Allowed(cfg, own, Terminate(server)))
      modifies this`own, this`log, this`failures
      ensures Valid() && Extends(old(log), log)
      ensures r == Err(ServerGone) <==> server !in old(own).mine.servers
      ensures r == Err(ServerGone) ==> own == old(own)
      ensures r.Ok? ==> Drift(Apply(old(own), Terminate(server)), own)
      ensures r.Err? && r.error != ServerGone ==>
                && r.error == ApiFailure
                && (Drift(Apply(old(own), Terminate(server)), own) || Drift(old(own), own))
      ensures failures == old(failures) + (if r == Err(ApiFailure) then 1 else 0)
    {
      hide Invariant, IsRun, Drift, Allowed, Apply;
      if server !in own.mine.servers {
        return Err(ServerGone);
      }
      var ok := Request(Terminate(server));
      r := if ok then Ok(()) else Err(ApiFailure);
    }

    /** FindIPByTags: none, the one, or an error for several; several never happens. */
    method FindIP() returns (r: Result<Option<nat>, Failure>)
      requires Valid()
      modifies this`own, this`log, this`failures
      ensures Valid() && Extends(old(log), log) && Drift(old(own), own)
      ensures r.Err? ==> r.error == ApiFailure
      ensures r.Ok? ==> if r.value.Some? then r.value.value in old(own).mine.ips else old(own).mine.ips == map[]
      ensures failures == old(failures) + (if r == Err(ApiFailure) then 1 else 0)
    {
      AtMostOneCounts(own.mine.ips);
      hide Invariant, IsRun, Drift;
      var reply: Outcome := *;
      if reply != Success {
        r := Err(ApiFailure);
      } else if |own.mine.ips| == 0 {
        r := Ok(None);
      } else if |own.mine.ips| > 1 {
        r := Err(TooManyItems);
      } else {
        assert own.mine.ips != map[];
        var id :| id in own.mine.ips;
        r := Ok(Some(id));
      }
      failures := failures + (if reply != Success then 1 else 0);
      Events();
    }

    /** FindInstanceByName: the first server of the name. */
    method FindServer() returns (r: Result<Option<Listed>, Failure>)
      requires Valid()
      modifies this`own, this`log, this`failures
      ensures Valid() && Extends(old(log), log) && Drift(old(own), own)
      ensures r.Err? ==> r.error == ApiFailure
      ensures r.Ok? ==> if r.value.Some? then Shows(old(own).mine, r.value.value) else old(own).mine.servers == map[]
      ensures failures == old(failures) + (if r == Err(ApiFailure) then 1 else 0)
    {
      assert forall s | s in own.mine.servers :: ServerInvariant(cfg, own.mine, s, own.mine.servers[s]);
      hide MineInvariant, SharedInvariant, IsRun, Drift, VolumesInvariant, BootInvariant, EndInvariant, IsNodeIP;
      var reply: Outcome := *;
      if reply != Success {
        r := Err(ApiFailure);
      } else if s :| s in own.mine.servers {
        var sv := own.mine.servers[s];
        var ip := if sv.ip.None? then None
                  else Some(PublicIP(sv.ip.value, own.mine.ips[sv.ip.value].address,
                      own.mine.ips[sv.ip.value].dynamic));
        r := Ok(Some(Listed(s, sv.power, ip, sv.volumes)));
      } else {
        r := Ok(None);
      }
      failures := failures + (if reply != Success then 1 else 0);
      Events();
    }

    /** FindPrivateNICByPNID: the first NIC of a server on the Private Network. */
    method FindNic(server: nat) returns (r: Result<Option<nat>, Failure>)
      requires Valid()
      modifies this`own, this`log, this`failures
      ensures Valid() && Extends(old(log), log) && Drift(old(own), own)
      ensures r.Err? ==> r.error == ApiFailure
      ensures r.Ok? ==>
                if r.value.Some? then r.value.value in old(own).mine.nics
                && old(own).mine.nics[r.value.value].server == server
                        else forall n | n in old(own).mine.nics :: old(own).mine.nics[n].server != server
      ensures failures == old(failures) + (if r == Err(ApiFailure) then 1 else 0)
    {
      hide Invariant, IsRun, Drift;
      var reply: Outcome := *;
      if reply != Success {
        r := Err(ApiFailure);
      } else if n :| n in own.mine.nics && own.mine.nics[n].server == server {
        r := Ok(Some(n));
      } else {
        r := Ok(None);
      }
      failures := failures + (if reply != Success then 1 else 0);
      Events();
    }

    /** FindIPv4ByInstancePrivateNICID: the address assigned to the NIC, if any yet. */
    method FindAddress(nic: nat) returns (r: Result<Option<string>, Failure>)
      requires Valid()
      modifies this`own, this`log, this`failures
      ensures Valid() && Extends(old(log), log) && Drift(old(own), own)
      ensures r.Err? ==> r.error == ApiFailure
      ensures r.Ok? && r.value.Some? ==> nic in old(own).mine.nics && old(own).mine.nics[nic].address == r.value
      ensures r.Ok? && r.value.None? ==> nic in old(own).mine.nics ==> old(own).mine.nics[nic].address.None?
      ensures failures == old(failures) + (if r == Err(ApiFailure) then 1 else 0)
    {
      hide Invariant, IsRun, Drift;
      var reply: Outcome := *;
      if reply != Success {
        r := Err(ApiFailure);
      } else {
        r := Ok(if nic in own.mine.nics then own.mine.nics[nic].address else None);
      }
      failures := failures + (if reply != Success then 1 else 0);
      Events();
    }

    /** FindLoadBalancerBackendByNames: the pool of the control-plane backend. */
    method FindPool() returns (r: Result<set<string>, Failure>)
      requires Valid()
      modifies this`own, this`log, this`failures
      ensures Valid() && Extends(old(log), log) && Drift(old(own), own)
      ensures r.Ok? ==> r.value == old(own).pooled && old(own).lb
      ensures r.Err? ==> r.error == ApiFailure || (r.error == NotFound && !old(own).lb)
      ensures failures == old(failures) + (if r == Err(ApiFailure) then 1 else 0)
    {
      hide Invariant, IsRun, Drift;
      var reply: Outcome := *;
      if reply != Success {
        r := Err(ApiFailure);
      } else if !own.lb {
        r := Err(NotFound);
      } else {
        r := Ok(own.pooled);
      }
      failures := failures + (if reply != Success then 1 else 0);
      Events();
    }

    /** FindLoadBalancerFrontendByNames. */
    method FindFrontend() returns (r: Result<(), Failure>)
      requires Valid()
      modifies this`own, this`log, this`failures
      ensures Valid() && Extends(old(log), log) && Drift(old(own), own)
      ensures r.Ok? ==> old(own).lb
      ensures r.Err? ==> r.error == ApiFailure || (r.error == NotFound && !old(own).lb)
      ensures failures == old(failures) + (if r == Err(ApiFailure) then 1 else 0)
    {
      hide Invariant, IsRun, Drift;
      var reply: Outcome := *;
      r := if reply != Success then Err(ApiFailure) else if own.lb then Ok(()) else Err(NotFound);
      failures := failures + (if reply != Success then 1 else 0);
      Events();
    }

    /** FindLoadBalancerACLByName: the first entry of the machine's name. */
    method FindAcl() returns (r: Result<Option<nat>, Failure>)
      requires Valid()
      modifies this`own, this`log, this`failures
      ensures Valid() && Extends(old(log), log) && Drift(old(own), own)
      ensures r.Err? ==> r.error == ApiFailure
      ensures r.Ok? ==> if r.value.Some? then r.value.value in old(own).acls else old(own).acls == map[]
      ensures failures == old(failures) + (if r == Err(ApiFailure) then 1 else 0)
    {
      hide Invariant, IsRun, Drift;
      var reply: Outcome := *;
      if reply != Success {
        r := Err(ApiFailure);
      } else if id :| id in own.acls {
        r := Ok(Some(id));
      } else {
        r := Ok(None);
      }
      failures := failures + (if reply != Success then 1 else 0);
      Events();
    }

    /** GetAllServerUserData: whether cloud-init is there. */
    method HasCloudInit(server: nat) returns (r: Result<bool, Failure>)
      requires Valid()
      modifies this`own, this`log, this`failures
      ensures Valid() && Extends(old(log), log) && Drift(old(own), own)
      ensures r.Err? ==> r.error == ApiFailure || (r.error == ServerGone && server !in old(own).mine.servers)
      ensures r.Ok? ==> server in old(own).mine.servers && r.value == old(own).mine.servers[server].init.Some?
      ensures failures == old(failures) + (if r == Err(ApiFailure) then 1 else 0)
    {
      hide Invariant, IsRun, Drift;
      var reply: Outcome := *;
      if reply != Success {
        r := Err(ApiFailure);
      } else if server !in own.mine.servers {
        r := Err(ServerGone);
      } else {
        r := Ok(own.mine.servers[server].init.Some?);
      }
      failures := failures + (if reply != Success then 1 else 0);
      Events();
    }
  }
}
