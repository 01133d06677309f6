// The machine reconciler: take a server down in order, however often it fails
// on the way.
module MachineTeardown {
  import opened Wrappers
  import opened Api
  import opened MachineProtocol
  import opened MachineCloud
  import opened Machines

  // ---- Progress of a teardown ----

  predicate ServersDown(a: Mine, b: Mine) {
    && (forall s | s in b.servers ::
          && s in a.servers
          && (b.servers[s].ip == a.servers[s].ip || b.servers[s].ip.None?)
          && (forall k | k in b.servers[s].volumes ::
              k in a.servers[s].volumes && b.servers[s].volumes[k] == a.servers[s].volumes[k])
          && (a.servers[s].started ==> b.servers[s].started))
    && (forall s | s in a.servers && a.servers[s].power == Stopped :: s in b.servers && b.servers[s].power == Stopped)
    && (forall s | s in a.servers :: s in b.servers || Leaving(a, s))
    && (forall s | s in b.servers && Leaving(b, s) :: Leaving(a, s))
  }

  predicate NicsDown(a: Mine, b: Mine) {
    && (forall n | n in b.nics ::
          n in a.nics && b.nics[n].server == a.nics[n].server && (a.nics[n].address.Some? ==> b.nics[n] == a.nics[n]))
    && (forall n | n in a.nics :: n in b.nics || Leaving(a, a.nics[n].server))
  }

  /** Nothing is made, nothing comes back, and a stopped server stays. */
  predicate Downward(o: Own, p: Own) {
    && o.mine.teardown && p.mine.teardown && p.mine.keep == o.mine.keep
    && ServersDown(o.mine, p.mine) && NicsDown(o.mine, p.mine)
    && (forall i | i in p.mine.ips :: i in o.mine.ips && p.mine.ips[i] == o.mine.ips[i])
    && p.pooled <= o.pooled && p.acls.Keys <= o.acls.Keys
    && (!SomeTerminating(o.mine) ==> !SomeTerminating(p.mine) && p.mine.volumes == o.mine.volumes)
  }

  predicate Unwinding(c: Call) {
    c.RemovePool? || c.DeleteAcl? || c.DeleteIP? || c.DetachVolume?
  }

  lemma DownwardIsReflexive(o: Own)
    requires o.mine.teardown
    ensures Downward(o, o)
  {
  }

  lemma ServersDownIsTransitive(a: Mine, b: Mine, c: Mine)
    requires ServersDown(a, b) && ServersDown(b, c)
    ensures ServersDown(a, c)
  {
  }

  lemma NicsDownIsTransitive(a: Mine, b: Mine, c: Mine)
    requires ServersDown(a, b) && NicsDown(a, b) && NicsDown(b, c)
    ensures NicsDown(a, c)
  {
    assert forall s | Leaving(b, s) :: Leaving(a, s);
    hide Leaving, ServersDown;
  }

  lemma DownwardIsTransitive(o: Own, p: Own, q: Own)
    requires Downward(o, p) && Downward(p, q)
    ensures Downward(o, q)
  {
    ServersDownIsTransitive(o.mine, p.mine, q.mine);
    NicsDownIsTransitive(o.mine, p.mine, q.mine);
    hide ServersDown, NicsDown, SomeTerminating;
  }

  lemma DriftGoesDown(o: Own, p: Own)
    requires o.mine.teardown && Drift(o, p)
    ensures Downward(o, p)
  {
    assert ServersDown(o.mine, p.mine);
    assert NicsDown(o.mine, p.mine);
    LeavingDrifts(o.mine, p.mine);
    TerminatingIsLeaving(o.mine, p.mine);
    hide ServersDown, NicsDown, SomeTerminating, ServersDrift, NicsDrift, Leaving;
  }

  lemma UnwindingGoesDown(cfg: Config, o: Own, c: Call)
    requires Allowed(cfg, o, c) && Unwinding(c)
    ensures Downward(o, Apply(o, c))
  {
    hide Allowed, Apply, ApplyMine, Unwinding, ServersDown, NicsDown, SomeTerminating, Shrunk;
    UnwindingShrinks(o.mine, c);
    UnwindingDrops(cfg, o, c);
    ShrunkIsDown(o.mine, Apply(o, c).mine);
  }

  lemma UnwindingDrops(cfg: Config, o: Own, c: Call)
    requires Allowed(cfg, o, c) && Unwinding(c)
    ensures var p := Apply(o, c);
            && p.mine == ApplyMine(o.mine, c) && o.mine.teardown && p.mine.teardown
            && p.mine.keep == o.mine.keep && p.mine.volumes == o.mine.volumes
            && (forall i | i in p.mine.ips :: i in o.mine.ips && p.mine.ips[i] == o.mine.ips[i])
            && p.pooled <= o.pooled && p.acls.Keys <= o.acls.Keys
  {
    hide Detached, WithoutIP;
  }

  predicate Shrunk(a: Server, b: Server) {
    && b.power == a.power && b.started == a.started && (b.ip == a.ip || b.ip.None?)
    && forall k | k in b.volumes :: k in a.volumes && b.volumes[k] == a.volumes[k]
  }

  lemma UnwindingShrinks(mine: Mine, c: Call)
    requires Unwinding(c)
    ensures var b := ApplyMine(mine, c);
            b.nics == mine.nics && b.servers.Keys == mine.servers.Keys && forall s | s in mine.servers ::
                Shrunk(mine.servers[s], b.servers[s])
  {
  }

  lemma ShrunkIsDown(a: Mine, b: Mine)
    requires b.nics == a.nics && b.servers.Keys == a.servers.Keys && forall s | s in a.servers ::
              Shrunk(a.servers[s], b.servers[s])
    ensures ServersDown(a, b) && NicsDown(a, b) && (SomeTerminating(b) ==> SomeTerminating(a))
  {
    if s :| s in b.servers && b.servers[s].power == Terminating {
      assert s in a.servers && a.servers[s].power == Terminating;
    }
  }

  /** One request on the way down. */
  method Unwind(c: MachineCloud, request: Call) returns (ok: bool)
    requires c.Valid() && Allowed(c.cfg, c.own, request) && Unwinding(request)
    modifies c`own, c`log, c`failures
    ensures c.Valid() && Extends(old(c.log), c.log) && Downward(old(c.own), c.own)
    ensures ok ==> Drift(Apply(old(c.own), request), c.own)
    ensures c.failures >= old(c.failures) + (if ok then 0 else 1)
  {
    ghost var o := c.own;
    hide Invariant, IsRun, Downward, Drift, Apply, Allowed;
    UnwindingGoesDown(c.cfg, o, request);
    DownIsTearingDown(o, Apply(o, request));
    ok := c.Request(request);
    if Drift(o, c.own) {
      DriftGoesDown(o, c.own);
    } else {
      DriftGoesDown(Apply(o, request), c.own);
      DownwardIsTransitive(o, Apply(o, request), c.own);
    }
  }

  lemma DownIsTearingDown(o: Own, p: Own)
    requires Downward(o, p)
    ensures o.mine.teardown && p.mine.teardown && p.mine.keep == o.mine.keep
    ensures p.pooled <= o.pooled && p.acls.Keys <= o.acls.Keys
    ensures o.acls == map[] ==> p.acls == map[]
    ensures forall i | i in p.mine.ips :: i in o.mine.ips && p.mine.ips[i] == o.mine.ips[i]
  {
  }

  /** The two lookups of ensureLoadBalancerACL. */
  method FindEntry(c: MachineCloud) returns (r: Result<Option<nat>, Failure>)
    requires c.Valid() && c.own.mine.teardown
    modifies c`own, c`log, c`failures
    ensures c.Valid() && Extends(old(c.log), c.log) && Downward(old(c.own), c.own)
    ensures r.Ok? ==> c.own.acls.Keys <= (if r.value.Some? then {r.value.value} else {})
    ensures r.Err? ==> r.error == ApiFailure || r.error == NotFound
    ensures r.Err? && r.error == NotFound ==> c.own.acls == map[]
    ensures c.failures >= old(c.failures) + (if r == Err(ApiFailure) then 1 else 0)
  {
    ghost var o := c.own;
    assert !o.lb ==> o.acls == map[];
    hide Invariant, IsRun, Downward, Drift;
    var frontend := c.FindFrontend();
    ghost var p := c.own;
    DriftGoesDown(o, p);
    DownIsTearingDown(o, p);
    if frontend.Err? {
      return Err(frontend.error);
    }
    r := c.FindAcl();
    DriftGoesDown(p, c.own);
    DownIsTearingDown(p, c.own);
    DownwardIsTransitive(o, p, c.own);
    if r.Ok? && r.value.Some? {
      AtMostOneEntry(c.cfg, p, r.value.value);
    }
  }

  /** ensureLoadBalancerACL with no address: afterwards there is no entry, also
      when there was no load balancer to have one. */
  method RemoveAcl(c: MachineCloud) returns (r: Result<(), Failure>)
    requires c.Valid() && c.own.mine.teardown
    modifies c`own, c`log, c`failures
    ensures c.Valid() && Extends(old(c.log), c.log) && Downward(old(c.own), c.own)
    ensures r.Err? ==> r.error == ApiFailure || r.error == NotFound
    ensures r.Ok? || r.error == NotFound ==> c.own.acls == map[]
    ensures c.failures >= old(c.failures) + (if r == Err(ApiFailure) then 1 else 0)
  {
    hide Invariant, IsRun, Downward, Drift, Apply, Allowed;
    ghost var o := c.own;
    var acl := FindEntry(c);
    ghost var p := c.own;
    DownIsTearingDown(o, p);
    if acl.Err? {
      return Err(acl.error);
    }
    if acl.value.None? {
      return Ok(());
    }
    UnlistingIsAllowed(c.cfg, p, acl.value.value, "");
    var removed := Unwind(c, DeleteAcl(acl.value.value));
    DownwardIsTransitive(o, p, c.own);
    if removed { RemovedIsGone(p, acl.value.value, c.own); }
    r := if removed then Ok(()) else Err(ApiFailure);
  }

  lemma UnlistingIsAllowed(cfg: Config, o: Own, id: nat, a: string)
    requires o.mine.teardown
    ensures Allowed(cfg, o, DeleteAcl(id)) && Allowed(cfg, o, RemovePool(a))
  {
  }

  lemma RemovedIsGone(o: Own, id: nat, p: Own)
    requires o.acls.Keys <= {id} && Drift(Apply(o, DeleteAcl(id)), p)
    ensures p.acls == map[]
  {
    hide ServersDrift, NicsDrift;
    assert o.acls - {id} == map[];
  }

  lemma AtMostOneEntry(cfg: Config, o: Own, id: nat)
    requires Invariant(cfg, o) && id in o.acls
    ensures o.acls.Keys <= {id}
  {
    hide MineInvariant;
  }

  // ---- The pool ----

  /** The machine can only be in the pool under these addresses. */
  ghost predicate OnlyAs(cfg: Config, o: Own, ips: MachineIPs) {
    SomeIP(ips) && forall a | IsNodeIP(cfg, o.mine, a) :: a == NodeIP(ips)
  }

  lemma OnlyAsDown(cfg: Config, o: Own, p: Own, ips: MachineIPs)
    requires Invariant(cfg, o) && OnlyAs(cfg, o, ips) && Downward(o, p)
    requires NodeIPIsSettled(cfg, o, ips)
    ensures OnlyAs(cfg, p, ips) && NodeIPIsSettled(cfg, p, ips)
  {
    forall a | IsNodeIP(cfg, p.mine, a) ensures a == NodeIP(ips) {
      if cfg.hasPN {
        var n :| n in p.mine.nics && p.mine.nics[n].address == Some(a);
        assert n in o.mine.nics && o.mine.nics[n].address == Some(NodeIP(ips));
      } else {
        var s :| s in p.mine.servers && p.mine.servers[s].ip.Some? && p.mine.servers[s].ip.value in p.mine.ips
            && p.mine.ips[p.mine.servers[s].ip.value].address == a;
        assert s in o.mine.servers;
        assert IsPublicIP(o.mine, a) && IsNodeIP(cfg, o.mine, a);
      }
    }
  }

  /** On a Private Network every NIC has the address already. */
  predicate NodeIPIsSettled(cfg: Config, o: Own, ips: MachineIPs) {
    SomeIP(ips) && (cfg.hasPN ==> forall n | n in o.mine.nics :: o.mine.nics[n].address == Some(NodeIP(ips)))
  }

  lemma ReadIPsAreTheOnly(cfg: Config, o: Own, server: Listed, nic: Option<nat>, ips: MachineIPs, p: Own)
    requires Invariant(cfg, o) && o.mine.teardown && Drift(o, p)
    requires nic.Some? <==> cfg.hasPN
    requires SomeIP(ips) && (ips.internal.Some? <==> nic.Some?)
    requires ips.external == (if server.publicIP.Some? then Some(server.publicIP.value.address) else None)
    requires nic.Some? ==> nic.value in o.mine.nics && o.mine.nics[nic.value].address == ips.internal
    requires Held(o, server)
    ensures OnlyAs(cfg, p, ips) && NodeIPIsSettled(cfg, p, ips)
  {
    assert OnlyAs(cfg, o, ips) && NodeIPIsSettled(cfg, o, ips) by {
      if cfg.hasPN {
        assert forall n | n in o.mine.nics :: n == nic.value by { hide ServerInvariant; }
      }
      hide Invariant;
    }
    DriftGoesDown(o, p);
    hide Downward, Invariant, Drift, OnlyAs, NodeIPIsSettled;
    OnlyAsDown(cfg, o, p, ips);
  }

  /** What Delete read about its server is still the most there is. */
  predicate Held(o: Own, l: Listed) {
    && (forall s | s in o.mine.servers ::
          && s == l.id
          && (o.mine.servers[s].ip.Some? ==> l.publicIP.Some? && o.mine.servers[s].ip.value == l.publicIP.value.id)
          && (forall k | k in o.mine.servers[s].volumes ::
              k in l.volumes && l.volumes[k] == o.mine.servers[s].volumes[k])
          && (l.power != Stopped ==> o.mine.servers[s].started))
    && (l.power == Stopped ==> l.id in o.mine.servers && o.mine.servers[l.id].power == Stopped)
    && (forall i | i in o.mine.ips ::
        l.publicIP.Some? && i == l.publicIP.value.id
        && o.mine.ips[i] == Ip(l.publicIP.value.address, l.publicIP.value.dynamic))
  }

  lemma HeldDown(o: Own, p: Own, l: Listed)
    requires Held(o, l) && Downward(o, p)
    ensures Held(p, l)
  {
  }

  lemma ShownIsHeld(cfg: Config, o: Own, l: Listed)
    requires Invariant(cfg, o) && Shows(o.mine, l)
    ensures Held(o, l)
  {
    assert ServerInvariant(cfg, o.mine, l.id, o.mine.servers[l.id]);
    hide VolumesInvariant, EndInvariant, IsNodeIP;
  }

  /** ensureControlPlaneLoadBalancer on the way down: afterwards the machine is
      in no pool, also when there was no load balancer to have one. */
  method RemoveFromPool(c: MachineCloud, ips: MachineIPs) returns (r: Result<(), Failure>)
    requires c.Valid() && c.own.mine.teardown && c.cfg.controlPlane
    requires OnlyAs(c.cfg, c.own, ips) && NodeIPIsSettled(c.cfg, c.own, ips)
    modifies c`own, c`log, c`failures
    ensures c.Valid() && Extends(old(c.log), c.log) && Downward(old(c.own), c.own)
    ensures r.Err? ==> r.error == ApiFailure || r.error == NotFound
    ensures r.Ok? || r.error == NotFound ==> c.own.pooled == {}
    ensures c.failures >= old(c.failures) + (if r == Err(ApiFailure) then 1 else 0)
  {
    ghost var o := c.own;
    assert !o.lb ==> o.pooled == {};
    hide Invariant, IsRun, Downward, Drift, Apply, OnlyAs, NodeIPIsSettled, Allowed;
    assert SomeIP(ips) by { SettledHasIP(c.cfg, o, ips); }
    var pool := c.FindPool();
    ghost var p := c.own;
    DriftGoesDown(o, p);
    DownIsTearingDown(o, p);
    if pool.Err? {
      return Err(pool.error);
    }
    OnlyAsDown(c.cfg, o, p, ips);
    if NodeIP(ips) !in pool.value {
      PooledOnlyAs(c.cfg, p, ips);
      return Ok(());
    }
    UnlistingIsAllowed(c.cfg, p, 0, NodeIP(ips));
    var removed := Unwind(c, RemovePool(NodeIP(ips)));
    DownwardIsTransitive(o, p, c.own);
    if removed {
      OutOfPool(p, NodeIP(ips), c.own);
      OnlyAsDown(c.cfg, o, c.own, ips);
      PooledOnlyAs(c.cfg, c.own, ips);
    }
    r := if removed then Ok(()) else Err(ApiFailure);
  }

  lemma SettledHasIP(cfg: Config, o: Own, ips: MachineIPs)
    requires OnlyAs(cfg, o, ips)
    ensures SomeIP(ips)
  {
  }

  lemma PooledOnlyAs(cfg: Config, o: Own, ips: MachineIPs)
    requires Invariant(cfg, o) && OnlyAs(cfg, o, ips) && NodeIP(ips) !in o.pooled
    ensures o.pooled == {}
  {
    assert forall a :: a !in o.pooled;
  }

  lemma OutOfPool(o: Own, a: string, p: Own)
    requires Drift(Apply(o, RemovePool(a)), p)
    ensures a !in p.pooled
  {
  }

  // ---- IP, volumes, server ----

  /** ensure that no IP is left: the attached one is released. */
  method ReleaseIP(c: MachineCloud, server: Listed) returns (r: Result<(), Failure>)
    requires c.Valid() && c.own.mine.teardown && Held(c.own, server) && Unlisted(c.own)
    modifies c`own, c`log, c`failures
    ensures c.Valid() && Extends(old(c.log), c.log) && Downward(old(c.own), c.own)
    ensures r.Err? ==> r.error == ApiFailure
    ensures r.Ok? ==> c.own.mine.ips == map[]
    ensures c.failures >= old(c.failures) + (if r == Err(ApiFailure) then 1 else 0)
  {
    ghost var o := c.own;
    DownwardIsReflexive(o);
    if server.publicIP.None? || server.publicIP.value.dynamic {
      NothingToRelease(c.cfg, o, server);
      return Ok(());
    }
    var id := server.publicIP.value.id;
    assert Allowed(c.cfg, o, DeleteIP(id));
    hide Invariant, IsRun, Downward, Drift, Apply, Allowed, Held;
    var released := Unwind(c, DeleteIP(id));
    if released { IPIsReleased(o, server, c.own); }
    r := if released then Ok(()) else Err(ApiFailure);
  }

  lemma NothingToRelease(cfg: Config, o: Own, l: Listed)
    requires Invariant(cfg, o) && Held(o, l) && (l.publicIP.None? || l.publicIP.value.dynamic)
    ensures o.mine.ips == map[]
  {
    hide ServerInvariant;
    assert forall i :: i !in o.mine.ips;
  }

  lemma IPIsReleased(o: Own, l: Listed, p: Own)
    requires Held(o, l) && l.publicIP.Some? && Drift(Apply(o, DeleteIP(l.publicIP.value.id)), p)
    ensures p.mine.ips == map[]
  {
    hide ServersDrift, NicsDrift;
    assert forall i :: i !in p.mine.ips;
  }

  predicate IsOff(mine: Mine, v: nat) {
    forall s | s in mine.servers :: !AttachedOf(mine.servers[s], v)
  }

  lemma DetachedDown(o: Own, p: Own, v: nat)
    requires IsOff(o.mine, v) && Downward(o, p)
    ensures IsOff(p.mine, v)
  {
    forall s | s in p.mine.servers ensures !AttachedOf(p.mine.servers[s], v) {
      assert !AttachedOf(o.mine.servers[s], v);
    }
  }

  lemma DetachingDetaches(o: Own, v: nat, p: Own)
    requires o.mine.teardown && Drift(Apply(o, DetachVolume(v)), p)
    ensures IsOff(p.mine, v)
  {
    var q := Apply(o, DetachVolume(v));
    assert IsOff(q.mine, v) by { hide ServersDrift, NicsDrift; }
    DriftGoesDown(q, p);
    DetachedDown(q, p, v);
  }

  /** No data volume of the listing is attached any more. */
  ghost predicate DataIsOff(mine: Mine, l: Listed) {
    forall k | k in l.volumes && !l.volumes[k].boot :: IsOff(mine, l.volumes[k].id)
  }

  /** The loop over the server's volumes, in whatever order: everything but the
      boot volume is detached. */
  method DetachData(c: MachineCloud, server: Listed) returns (r: Result<(), Failure>)
    requires c.Valid() && c.own.mine.teardown
    modifies c`own, c`log, c`failures
    ensures c.Valid() && Extends(old(c.log), c.log) && Downward(old(c.own), c.own)
    ensures r.Err? ==> r.error == ApiFailure
    ensures r.Ok? ==> DataIsOff(c.own.mine, server)
    ensures c.failures >= old(c.failures) + (if r == Err(ApiFailure) then 1 else 0)
  {
    DownwardIsReflexive(c.own);
    hide Invariant, IsRun, Downward, Drift, Apply, Allowed, IsOff, OffExcept, DataIsOff;
    var todo := server.volumes.Keys;
    NothingOffYet(c.own.mine, server);
    while todo != {}
      invariant todo <= server.volumes.Keys
      invariant c.Valid() && Extends(old(c.log), c.log) && Downward(old(c.own), c.own)
      invariant OffExcept(c.own.mine, server, todo)
      invariant c.failures >= old(c.failures)
      decreases todo
    {
      var k :| k in todo;
      if !server.volumes[k].boot {
        ghost var before := c.own;
        DownIsTearingDown(old(c.own), before);
        var detached := DetachOne(c, server.volumes[k].id);
        DownwardIsTransitive(old(c.own), before, c.own);
        if !detached {
          return Err(ApiFailure);
        }
        OffExceptDown(before, c.own, server, todo);
      }
      OffExceptNext(c.own.mine, server, todo, k);
      todo := todo - {k};
    }
    AllOff(c.own.mine, server);
    r := Ok(());
  }

  /** The data volumes of the listing are off, but for those still to do. */
  ghost predicate OffExcept(mine: Mine, l: Listed, todo: set<string>) {
    forall k | k in l.volumes && k !in todo && !l.volumes[k].boot :: IsOff(mine, l.volumes[k].id)
  }

  lemma NothingOffYet(mine: Mine, l: Listed)
    ensures OffExcept(mine, l, l.volumes.Keys)
  {
  }

  lemma OffExceptDown(o: Own, p: Own, l: Listed, todo: set<string>)
    requires Downward(o, p) && OffExcept(o.mine, l, todo)
    ensures OffExcept(p.mine, l, todo)
  {
    hide Downward, IsOff;
    forall k | k in l.volumes && k !in todo && !l.volumes[k].boot ensures IsOff(p.mine, l.volumes[k].id) {
      DetachedDown(o, p, l.volumes[k].id);
    }
  }

  lemma OffExceptNext(mine: Mine, l: Listed, todo: set<string>, k: string)
    requires OffExcept(mine, l, todo) && k in l.volumes && (l.volumes[k].boot || IsOff(mine, l.volumes[k].id))
    ensures OffExcept(mine, l, todo - {k})
  {
    hide IsOff;
  }

  lemma AllOff(mine: Mine, l: Listed)
    requires OffExcept(mine, l, {})
    ensures DataIsOff(mine, l)
  {
    hide IsOff;
  }

  method DetachOne(c: MachineCloud, v: nat) returns (ok: bool)
    requires c.Valid() && c.own.mine.teardown
    modifies c`own, c`log, c`failures
    ensures c.Valid() && Extends(old(c.log), c.log) && Downward(old(c.own), c.own)
    ensures ok ==> IsOff(c.own.mine, v)
    ensures c.failures >= old(c.failures) + (if ok then 0 else 1)
  {
    ghost var o := c.own;
    hide Invariant, IsRun, Downward, Drift, Apply, IsOff;
    assert Allowed(c.cfg, o, DetachVolume(v));
    hide Allowed;
    ok := Unwind(c, DetachVolume(v));
    if ok { DetachingDetaches(o, v, c.own); }
  }

  /** The server may go, and only its boot volume goes with it. */
  ghost predicate Cleared(o: Own, l: Listed) {
    o.mine.teardown && Held(o, l) && Unlisted(o) && o.mine.ips == map[] && DataIsOff(o.mine, l)
  }

  lemma ClearedDown(o: Own, p: Own, l: Listed)
    requires Cleared(o, l) && Downward(o, p)
    ensures Cleared(p, l)
  {
    HeldDown(o, p, l);
    forall k | k in l.volumes && !l.volumes[k].boot ensures IsOff(p.mine, l.volumes[k].id) {
      DetachedDown(o, p, l.volumes[k].id);
    }
    assert p.mine.ips == map[] by { assert forall i :: i !in p.mine.ips; }
    hide ServersDown, NicsDown, SomeTerminating, Held, IsOff;
  }

  lemma ClearedMayGo(cfg: Config, o: Own, l: Listed)
    requires Invariant(cfg, o) && Cleared(o, l) && l.id in o.mine.servers
    ensures MayGo(o, l.id)
    ensures l.power == Stopped ==> Allowed(cfg, o, DeleteServer(l.id))
    ensures l.power != Stopped ==> Allowed(cfg, o, Terminate(l.id))
  {
    var sv := o.mine.servers[l.id];
    assert ServerInvariant(cfg, o.mine, l.id, sv);
    forall k | k in sv.volumes ensures sv.volumes[k].id !in o.mine.keep {
      if !sv.volumes[k].boot {
        assert IsOff(o.mine, l.volumes[k].id) && AttachedOf(sv, l.volumes[k].id);
        assert false;
      }
    }
  }

  function BootVolumes(vols: map<string, Volume>): set<nat> {
    set k | k in vols && vols[k].boot :: vols[k].id
  }

  /** A stopped server: its boot volume is detached and deleted, then the server. */
  method DeleteStopped(c: MachineCloud, server: Listed) returns (r: Result<(), Failure>)
    requires c.Valid() && Cleared(c.own, server) && server.power == Stopped
    requires forall k | k in server.volumes :: server.volumes[k].boot ==>
              k == "0" && server.volumes[k].id !in c.own.mine.keep
    modifies c`own, c`log, c`failures
    ensures c.Valid() && Extends(old(c.log), c.log) && c.own.mine.teardown && c.own.mine.keep == old(c.own).mine.keep
    ensures r.Err? ==> r.error == ApiFailure
    ensures r.Ok? ==> c.own.mine.servers == map[] && c.own.mine.ips == map[] && Unlisted(c.own)
    ensures r.Ok? ==> c.own.mine.volumes == old(c.own).mine.volumes - BootVolumes(server.volumes)
    ensures c.failures >= old(c.failures) + (if r == Err(ApiFailure) then 1 else 0)
  {
    hide Invariant, IsRun, Downward, Drift, Apply, Allowed, IsOff, Cleared, SomeTerminating;
    ghost var o := c.own;
    ClearedIsDown(o, server);
    StoppedIsThere(o, server);
    assert BootVolumes(server.volumes) ==
           if "0" in server.volumes && server.volumes["0"].boot then {server.volumes["0"].id} else {};
    if "0" in server.volumes && server.volumes["0"].boot {
      var v := server.volumes["0"].id;
      var dropped := DropBootVolume(c, server, v);
      if !dropped {
        return Err(ApiFailure);
      }
    }
    ghost var p := c.own;
    ClearedIsDown(p, server);
    StoppedIsThere(p, server);
    ClearedMayGo(c.cfg, p, server);
    var deleted := c.Request(DeleteServer(server.id));
    if deleted { ServerIsDeleted(p, server, c.own); }
    KeepStays(p, DeleteServer(server.id), c.own);
    r := if deleted then Ok(()) else Err(ApiFailure);
  }

  lemma KeepStays(o: Own, c: Call, p: Own)
    requires o.mine.teardown && (Drift(Apply(o, c), p) || Drift(o, p))
    requires c.DeleteServer? || c.Terminate? || c.DeleteVolume?
    ensures p.mine.teardown && p.mine.keep == o.mine.keep
  {
    hide ServersDrift, NicsDrift;
  }

  lemma ClearedIsDown(o: Own, l: Listed)
    requires Cleared(o, l)
    ensures o.mine.teardown
  {
  }

  lemma StoppedIsThere(o: Own, l: Listed)
    requires Cleared(o, l) && l.power == Stopped
    ensures l.id in o.mine.servers && !SomeTerminating(o.mine)
  {
  }

  /** Detaches and deletes the boot volume. */
  method DropBootVolume(c: MachineCloud, server: Listed, v: nat) returns (ok: bool)
    requires c.Valid() && Cleared(c.own, server) && server.power == Stopped && !SomeTerminating(c.own.mine)
              && v !in c.own.mine.keep
    modifies c`own, c`log, c`failures
    ensures c.Valid() && Extends(old(c.log), c.log) && c.own.mine.teardown && c.own.mine.keep == old(c.own).mine.keep
    ensures ok ==> Cleared(c.own, server) && c.own.mine.volumes == old(c.own).mine.volumes - {v}
    ensures c.failures >= old(c.failures) + (if ok then 0 else 1)
  {
    ghost var o := c.own;
    ClearedIsDown(o, server);
    assert Allowed(c.cfg, o, DetachVolume(v));
    hide Invariant, IsRun, Downward, Drift, Apply, IsOff, Cleared, SomeTerminating;
    var detached := Unwind(c, DetachVolume(v));
    ghost var p := c.own;
    DownIsTearingDown(o, p);
    if !detached {
      return false;
    }
    ClearedDown(o, p, server);
    DetachingDetaches(o, v, p);
    MayDropVolume(c.cfg, o, p, v);
    hide Allowed;
    ok := c.Request(DeleteVolume(v));
    KeepStays(p, DeleteVolume(v), c.own);
    if ok { VolumeIsDropped(p, server, v, c.own); }
  }

  lemma MayDropVolume(cfg: Config, o: Own, p: Own, v: nat)
    requires Downward(o, p) && !SomeTerminating(o.mine) && v !in o.mine.keep && IsOff(p.mine, v)
    ensures Allowed(cfg, p, DeleteVolume(v)) && !SomeTerminating(p.mine) && p.mine.volumes == o.mine.volumes
  {
  }

  lemma VolumeIsDropped(o: Own, l: Listed, v: nat, p: Own)
    requires Cleared(o, l) && !SomeTerminating(o.mine) && Drift(Apply(o, DeleteVolume(v)), p)
    ensures Cleared(p, l) && p.mine.volumes == o.mine.volumes - {v}
  {
    var q := Apply(o, DeleteVolume(v));
    assert Cleared(q, l) && !SomeTerminating(q.mine) by { hide Drift; }
    hide Cleared, SomeTerminating;
    assert p.mine.volumes == q.mine.volumes by { hide ServersDrift, NicsDrift; }
    hide Drift;
    ClearedIsDown(q, l);
    DriftGoesDown(q, p);
    hide Downward;
    ClearedDown(q, p, l);
  }

  lemma ServerIsDeleted(o: Own, l: Listed, p: Own)
    requires Cleared(o, l) && l.power == Stopped && Drift(Apply(o, DeleteServer(l.id)), p)
    ensures p.mine.servers == map[] && p.mine.ips == map[] && Unlisted(p) && p.mine.volumes == o.mine.volumes
  {
    var q := Apply(o, DeleteServer(l.id));
    assert q.mine.servers == map[] by { assert forall s :: s !in q.mine.servers; }
    assert p.mine.servers == map[] by { assert forall s :: s !in p.mine.servers; }
    assert !SomeTerminating(q.mine);
    hide ServersDrift, NicsDrift, SomeTerminating, Held, IsOff;
  }

  /** A server that is not stopped is terminated, and its volumes with it. */
  method TerminateServer(c: MachineCloud, server: Listed) returns (r: Result<(), Failure>)
    requires c.Valid() && Cleared(c.own, server) && server.power != Stopped
    modifies c`own, c`log, c`failures
    ensures c.Valid() && Extends(old(c.log), c.log) && c.own.mine.teardown && c.own.mine.keep == old(c.own).mine.keep
    ensures r.Err? ==> r.error == ApiFailure || (r.error == ServerGone && server.id !in old(c.own).mine.servers)
    ensures r.Ok? ==> Unlisted(c.own) && c.own.mine.ips == map[] && forall s | s in c.own.mine.servers ::
              c.own.mine.servers[s].power == Terminating
    ensures c.failures >= old(c.failures) + (if r == Err(ApiFailure) then 1 else 0)
  {
    ghost var o := c.own;
    ClearedIsDown(o, server);
    hide Invariant, IsRun, Drift, Apply, Allowed, IsOff, Cleared;
    if server.id in o.mine.servers { ClearedMayGo(c.cfg, o, server); }
    r := c.RequestTerminate(server.id);
    if server.id in o.mine.servers { KeepStays(o, Terminate(server.id), c.own); }
    if r.Err? {
      return;
    }
    ServerIsTerminating(o, server, c.own);
  }

  lemma ServerIsTerminating(o: Own, l: Listed, p: Own)
    requires Cleared(o, l) && l.id in o.mine.servers && Drift(Apply(o, Terminate(l.id)), p)
    ensures Unlisted(p) && p.mine.ips == map[] && forall s | s in p.mine.servers ::
              p.mine.servers[s].power == Terminating
  {
    hide NicsDrift, IsOff;
  }

  // ---- Delete ----

  /** A control-plane machine whose Private Network NIC was never made. */
  predicate LacksItsNic(cfg: Config, o: Own) {
    cfg.controlPlane && cfg.hasPN && o.mine.servers != map[] && o.mine.nics == map[]
  }

  /** Such a machine with its server there to stay. */
  predicate IsStuck(cfg: Config, o: Own) {
    LacksItsNic(cfg, o) && !SomeTerminating(o.mine)
  }

  lemma StuckDown(cfg: Config, o: Own, p: Own)
    requires IsStuck(cfg, o) && Downward(o, p)
    ensures IsStuck(cfg, p)
  {
    NoNicsComeBack(o, p);
    StandingDown(cfg, o, p);
  }

  /** A control-plane machine on a Private Network whose server is there to stay. */
  predicate Standing(cfg: Config, o: Own) {
    cfg.controlPlane && cfg.hasPN && o.mine.servers != map[] && !SomeTerminating(o.mine)
  }

  lemma StandingDown(cfg: Config, o: Own, p: Own)
    requires Standing(cfg, o) && Downward(o, p)
    ensures Standing(cfg, p)
  {
    var s :| s in o.mine.servers;
    assert Leaving(o.mine, s) ==> SomeTerminating(o.mine);
    assert s in p.mine.servers;
  }

  /** No NIC, or one that has no address yet. */
  predicate Unaddressed(mine: Mine) {
    forall n | n in mine.nics :: mine.nics[n].address.None?
  }

  /** What keeps a control-plane machine from leaving the pool: the network is not
      in the status of the cluster, its address is not known, or its server goes away
      meanwhile. */
  predicate Blocked(cfg: Config, o: Own, networkKnown: bool) {
    cfg.controlPlane && cfg.hasPN && (!networkKnown || Unaddressed(o.mine) || SomeTerminating(o.mine))
  }

  lemma BlockedDown(cfg: Config, o: Own, p: Own, networkKnown: bool)
    requires Downward(o, p) && Blocked(cfg, p, networkKnown)
    ensures Blocked(cfg, o, networkKnown)
  {
    if networkKnown && !SomeTerminating(o.mine) {
      forall n | n in o.mine.nics ensures o.mine.nics[n].address.None? {
        assert Leaving(o.mine, o.mine.nics[n].server) ==> SomeTerminating(o.mine);
        assert n in p.mine.nics;
      }
    }
  }

  /** Some state since then had an assigned address. */
  ghost predicate AddressSeen(before: seq<Own>, log: seq<Own>) {
    exists i: nat :: |before| - 1 <= i < |log| && !Unaddressed(log[i].mine)
  }

  /** Some state since then was blocked. */
  ghost predicate BlockedOnce(cfg: Config, before: seq<Own>, log: seq<Own>, networkKnown: bool) {
    exists i: nat :: |before| - 1 <= i < |log| && Hindered(cfg, log[i], networkKnown)
  }

  /** Blocked, or with a server that is going away already. */
  predicate Hindered(cfg: Config, o: Own, networkKnown: bool) {
    o.mine.servers != map[] && (Blocked(cfg, o, networkKnown) || SomeTerminating(o.mine))
  }

  lemma SeenStays(before: seq<Own>, mid: seq<Own>, log: seq<Own>, longer: seq<Own>)
    requires |before| <= |mid| && Extends(log, longer) && AddressSeen(mid, log)
    ensures AddressSeen(before, longer)
  {
    hide Unaddressed;
    var i: nat :| |mid| - 1 <= i < |log| && !Unaddressed(log[i].mine);
    assert longer[i] == log[i];
  }

  lemma SeenHere(c: MachineCloud)
    requires c.Valid() && !Unaddressed(c.own.mine)
    ensures AddressSeen(c.log, c.log)
  {
    hide Unaddressed, Invariant;
    assert c.log[|c.log| - 1] == c.own;
  }

  lemma BlockedHere(c: MachineCloud, before: seq<Own>, mid: seq<Own>, networkKnown: bool)
    requires |before| <= |mid| && 0 < |mid| && Extends(mid, c.log)
    requires Hindered(c.cfg, mid[|mid| - 1], networkKnown)
    ensures BlockedOnce(c.cfg, before, c.log, networkKnown)
  {
    hide Hindered;
    assert c.log[|mid| - 1] == mid[|mid| - 1];
  }

  /** The NIC that was looked up is gone, or has no address, or there was none. */
  lemma NoNicIsBlocked(cfg: Config, o: Own, l: Listed)
    requires Invariant(cfg, o) && cfg.controlPlane && cfg.hasPN && Held(o, l)
    requires forall n | n in o.mine.nics :: o.mine.nics[n].server != l.id
    ensures Blocked(cfg, o, true)
  {
    hide ServerInvariant, SharedInvariant;
    assert forall n :: n !in o.mine.nics;
  }

  lemma WaitingNicIsBlocked(cfg: Config, o: Own, nic: nat, p: Own)
    requires Invariant(cfg, p) && cfg.controlPlane && cfg.hasPN && nic in o.mine.nics && Downward(o, p)
    requires nic in p.mine.nics ==> p.mine.nics[nic].address.None?
    ensures Blocked(cfg, o, true)
  {
    if nic in p.mine.nics {
      assert Unaddressed(p.mine) by { hide ServerInvariant, SharedInvariant, Downward; }
      BlockedDown(cfg, o, p, true);
    } else {
      assert Leaving(o.mine, o.mine.nics[nic].server);
    }
  }

  /** The steps of Delete that take a control-plane machine out of the pool. */
  method LeavePool(c: MachineCloud, server: Listed, networkKnown: bool) returns (r: Result<(), Failure>)
    requires c.Valid() && c.own.mine.teardown && Held(c.own, server)
    modifies c`own, c`log, c`failures
    ensures c.Valid() && Extends(old(c.log), c.log) && Downward(old(c.own), c.own)
    ensures r.Ok? ==> c.own.pooled == {}
    ensures r.Ok? && c.cfg.controlPlane && c.cfg.hasPN ==> networkKnown && old(c.own).mine.nics != map[]
    ensures r.Ok? && c.cfg.controlPlane && c.cfg.hasPN ==> AddressSeen(old(c.log), c.log)
    ensures r.Err? && r.error != ApiFailure ==> Blocked(c.cfg, old(c.own), networkKnown)
    ensures c.failures >= old(c.failures) + (if r == Err(ApiFailure) then 1 else 0)
    ensures r.Err? ==> r.error != ServerGone
  {
    hide IsRun, Downward, Drift, Held, Invariant, Blocked, AddressSeen;
    ghost var o, log := c.own, c.log;
    DownwardIsReflexive(o);
    if !networkKnown { UnknownIsBlocked(c.cfg, o); }
    if !c.cfg.controlPlane {
      WorkersAreNotPooled(c.cfg, o);
      return Ok(());
    }
    var nic: Option<nat> := None;
    if c.cfg.hasPN {
      if !networkKnown {
        return Err(NetworkUnknown);
      }
      var found := c.FindNic(server.id);
      DriftGoesDown(o, c.own);
      if found.Err? {
        return Err(found.error);
      }
      if found.value.None? {
        NoNicIsBlocked(c.cfg, o, server);
        return Err(NotFound);
      }
      nic := found.value;
    }
    ghost var p := c.own;
    DownIsTearingDown(o, p);
    HeldDown(o, p, server);
    ghost var mid := c.log;
    r := LeavePoolAs(c, server, nic);
    DownwardIsTransitive(o, p, c.own);
    if r.Ok? && c.cfg.hasPN {
      SeenStays(log, mid, c.log, c.log);
    }
    if r.Err? && r.error == PrivateIPNotFound {
      WaitingNicIsBlocked(c.cfg, o, nic.value, p);
    }
  }

  lemma WorkersAreNotPooled(cfg: Config, o: Own)
    requires Invariant(cfg, o) && !cfg.controlPlane
    ensures o.pooled == {}
  {
    hide MineInvariant;
  }

  lemma UnknownIsBlocked(cfg: Config, o: Own)
    ensures cfg.controlPlane && cfg.hasPN ==> Blocked(cfg, o, false)
  {
  }

  method LeavePoolAs(c: MachineCloud, server: Listed, nic: Option<nat>) returns (r: Result<(), Failure>)
    requires c.Valid() && c.own.mine.teardown && c.cfg.controlPlane && Held(c.own, server)
              && (nic.Some? <==> c.cfg.hasPN)
    modifies c`own, c`log, c`failures
    ensures c.Valid() && Extends(old(c.log), c.log) && Downward(old(c.own), c.own)
    ensures r.Ok? ==> c.own.pooled == {}
    ensures r.Ok? && nic.Some? ==> AddressSeen(old(c.log), c.log)
    ensures r.Err? ==> r.error == ApiFailure || (r.error == PrivateIPNotFound && nic.Some?)
    ensures r.Err? && r.error == PrivateIPNotFound && nic.value in old(c.own).mine.nics ==>
              old(c.own).mine.nics[nic.value].address.None?
    ensures c.failures >= old(c.failures) + (if r == Err(ApiFailure) then 1 else 0)
  {
    ghost var o, log := c.own, c.log;
    DownwardIsReflexive(o);
    if nic.Some? && !Unaddressed(o.mine) { SeenHere(c); }
    assert forall n | n in o.mine.nics && o.mine.nics[n].address.Some? :: !Unaddressed(o.mine);
    hide IsRun, Downward, Drift, Held, Invariant, OnlyAs, NodeIPIsSettled, AddressSeen, Unaddressed;
    var ips := GetMachineIPs(c, server, nic);
    ghost var p := c.own;
    DriftGoesDown(o, p);
    DownIsTearingDown(o, p);
    if ips.Err? {
      if ips.error == MachineHasNoIP {
        NoIPNoPool(c.cfg, o, server);
        return Ok(());
      }
      return Err(ips.error);
    }
    ReadIPsAreTheOnly(c.cfg, o, server, nic, ips.value, p);
    var removed := RemoveFromPool(c, ips.value);
    DownwardIsTransitive(o, p, c.own);
    if nic.Some? { SeenStays(log, log, log, c.log); }
    r := if removed.Err? && removed.error != NotFound then Err(removed.error) else Ok(());
  }

  lemma NoIPNoPool(cfg: Config, o: Own, l: Listed)
    requires Invariant(cfg, o) && Held(o, l) && l.publicIP.None? && !cfg.hasPN
    ensures o.pooled == {}
  {
    hide MineInvariant;
    assert forall a :: !IsPublicIP(o.mine, a);
  }

  /** How a deletion can end. On a Private Network a control-plane machine with a
      server needs an address for it: success means that one was seen on the way,
      and without one a server that is there to stay stays; without a NIC it stays
      for good. Only what is Blocked fails without a failing request. */
  predicate GoesByItsAddress(cfg: Config, o: Own, networkKnown: bool, r: Result<(), Failure>, p: Own, seen: bool) {
    && (r.Ok? && cfg.controlPlane && cfg.hasPN && o.mine.servers != map[] ==> networkKnown && seen)
    && (r.Err? && r.error != ApiFailure ==>
          o.mine.servers != map[] && if r.error == ServerGone then SomeTerminating(o.mine)
              else Blocked(cfg, o, networkKnown))
    && (Standing(cfg, o) ==> Standing(cfg, p) || (networkKnown && seen))
    && (LacksItsNic(cfg, o) ==> r.Err?) && (IsStuck(cfg, o) ==> IsStuck(cfg, p))
  }

  /** Delete. It may be cut off and run again any number of times. Without a
      server it succeeds and touches nothing, so a public IP made for a server
      that never was is left behind. With one, success means that its entry, its
      place in the pool and its IP are gone and that it is gone or on its way
      out. A control-plane machine on a Private Network is only deleted if its
      address shows up meanwhile; with that address, no failing request and a
      server that is not on its way out already, nothing is in the way. */
  method Delete(c: MachineCloud, networkKnown: bool) returns (r: Result<(), Failure>)
    requires c.Valid()
    modifies c`own, c`log, c`failures
    ensures c.Valid() && Extends(old(c.log), c.log) && c.own.mine.teardown
    ensures c.own.mine.keep == Apply(old(c.own), BeginTeardown).mine.keep
    ensures old(c.own).mine.servers == map[] ==> c.own.mine.ips == old(c.own).mine.ips && c.own.mine.servers == map[]
    ensures r.Ok? && old(c.own).mine.servers != map[] ==>
              Unlisted(c.own) && c.own.mine.ips == map[] && forall s | s in c.own.mine.servers ::
                  c.own.mine.servers[s].power == Terminating
    ensures r.Ok? ==> forall s | s in old(c.own).mine.servers && old(c.own).mine.servers[s].power == Stopped ::
              c.own.mine.servers == map[]
                  && c.own.mine.volumes == old(c.own).mine.volumes - BootVolumes(old(c.own).mine.servers[s].volumes)
    ensures GoesByItsAddress(c.cfg, old(c.own), networkKnown, r, c.own, AddressSeen(old(c.log), c.log))
    ensures c.failures >= old(c.failures) + (if r == Err(ApiFailure) then 1 else 0)
  {
    hide IsRun, Invariant, DataVolumes, BootVolumes, Standing, Blocked, AddressSeen;
    ghost var o, log := c.own, c.log;
    c.BeginDelete();
    ghost var mid := c.log;
    SameAtTheStart(c.cfg, o, networkKnown);
    r := DeleteBegun(c, networkKnown);
    if AddressSeen(mid, c.log) { SeenStays(log, mid, c.log, c.log); }
  }

  lemma SameAtTheStart(cfg: Config, o: Own, networkKnown: bool)
    ensures var p := Apply(o, BeginTeardown);
            (IsStuck(cfg, o) ==> IsStuck(cfg, p)) && (Standing(cfg, o) ==> Standing(cfg, p))
                && (Blocked(cfg, p, networkKnown) ==> Blocked(cfg, o, networkKnown))
  {
    assert Apply(o, BeginTeardown).mine.servers == o.mine.servers;
  }

  /** What a deletion that succeeds leaves of a server. */
  predicate TakenDown(o: Own, p: Own) {
    && (o.mine.servers != map[] ==>
          && Unlisted(p) && p.mine.ips == map[]
          && forall s | s in p.mine.servers :: p.mine.servers[s].power == Terminating)
    && (forall s | s in o.mine.servers && o.mine.servers[s].power == Stopped ::
          p.mine.servers == map[] && p.mine.volumes == o.mine.volumes - BootVolumes(o.mine.servers[s].volumes))
  }

  method DeleteBegun(c: MachineCloud, networkKnown: bool) returns (r: Result<(), Failure>)
    requires c.Valid() && c.own.mine.teardown
    modifies c`own, c`log, c`failures
    ensures c.Valid() && Extends(old(c.log), c.log) && c.own.mine.teardown && c.own.mine.keep == old(c.own).mine.keep
    ensures old(c.own).mine.servers == map[] ==> c.own.mine.ips == old(c.own).mine.ips && c.own.mine.servers == map[]
    ensures r.Ok? ==> TakenDown(old(c.own), c.own)
    ensures GoesByItsAddress(c.cfg, old(c.own), networkKnown, r, c.own, AddressSeen(old(c.log), c.log))
    ensures c.failures >= old(c.failures) + (if r == Err(ApiFailure) then 1 else 0)
  {
    ghost var o, log := c.own, c.log;
    hide IsRun, Downward, Drift, Held, Invariant, Shows, BootVolumes, SomeTerminating, Standing, Blocked, AddressSeen,
        Unlisted, IsStuck, LacksItsNic, GoesByItsAddress, TakenDown;
    var server := c.FindServer();
    ghost var p := c.own;
    ghost var mid := c.log;
    DriftGoesDown(o, p);
    DownIsTearingDown(o, p);
    if server.Err? || server.value.None? {
      if o.mine.servers == map[] {
        StillNoServer(o, p);
        DriftKeepsIPs(o, p);
        NothingToTakeDown(o, p);
      }
      UnfoundGoesByItsAddress(c.cfg, o, networkKnown, server.Err?, p, AddressSeen(log, c.log));
      return if server.Err? then Err(server.error) else Ok(());
    }
    var l := server.value.value;
    ShownIsHeld(c.cfg, o, l);
    HeldDown(o, p, l);
    ShownBoots(c.cfg, o, l);
    r := TakeDown(c, l, networkKnown, o);
    if AddressSeen(mid, c.log) { SeenStays(log, mid, c.log, c.log); }
    if r.Ok? { ListedIsTakenDown(o, l, c.own); }
    TakenDownGoesByItsAddress(c.cfg, o, networkKnown, r, c.own, AddressSeen(log, c.log));
  }

  lemma NothingToTakeDown(o: Own, p: Own)
    requires o.mine.servers == map[]
    ensures TakenDown(o, p)
  {
  }

  lemma ListedIsTakenDown(o: Own, l: Listed, p: Own)
    requires forall s | s in o.mine.servers ::
               o.mine.servers[s].volumes == l.volumes && o.mine.servers[s].power == l.power
    requires Unlisted(p) && p.mine.ips == map[]
    requires forall s | s in p.mine.servers :: p.mine.servers[s].power == Terminating
    requires l.power == Stopped ==>
               p.mine.servers == map[] && p.mine.volumes == o.mine.volumes - BootVolumes(l.volumes)
    ensures TakenDown(o, p)
  {
  }

  lemma TakenDownGoesByItsAddress(cfg: Config, o: Own, networkKnown: bool, r: Result<(), Failure>, p: Own, seen: bool)
    requires o.mine.servers != map[]
    requires r.Err? && r.error != ApiFailure ==>
               if r.error == ServerGone then SomeTerminating(o.mine) else Blocked(cfg, o, networkKnown)
    requires cfg.controlPlane && cfg.hasPN ==> (r.Err? && Downward(o, p)) || (networkKnown && seen)
    requires cfg.controlPlane && cfg.hasPN && o.mine.nics == map[] ==> r.Err? && Downward(o, p)
    ensures GoesByItsAddress(cfg, o, networkKnown, r, p, seen)
  {
    hide Downward, Blocked, SomeTerminating;
    if IsStuck(cfg, o) { StuckDown(cfg, o, p); }
    if Standing(cfg, o) && Downward(o, p) { StandingDown(cfg, o, p); }
  }

  lemma UnfoundGoesByItsAddress(cfg: Config, o: Own, networkKnown: bool, failed: bool, p: Own, seen: bool)
    requires Downward(o, p) && (failed || o.mine.servers == map[])
    ensures GoesByItsAddress(cfg, o, networkKnown, if failed then Err(ApiFailure) else Ok(()), p, seen)
  {
    hide Downward, Blocked, SomeTerminating;
    if IsStuck(cfg, o) { StuckDown(cfg, o, p); }
    if Standing(cfg, o) { StandingDown(cfg, o, p); }
  }

  lemma DriftKeepsIPs(o: Own, p: Own)
    requires Drift(o, p)
    ensures p.mine.ips == o.mine.ips
  {
  }

  lemma ShownBoots(cfg: Config, o: Own, l: Listed)
    requires Invariant(cfg, o) && Shows(o.mine, l)
    ensures forall k | k in l.volumes :: l.volumes[k].boot ==> k == "0" && l.volumes[k].id !in o.mine.keep
    ensures forall s | s in o.mine.servers ::
              s == l.id && o.mine.servers[s].volumes == l.volumes && o.mine.servers[s].power == l.power
    ensures l.power == Stopped ==> !SomeTerminating(o.mine)
    ensures l.id in o.mine.servers
  {
    assert ServerInvariant(cfg, o.mine, l.id, o.mine.servers[l.id]);
  }

  /** The part of Delete that has found a server. */
  method TakeDown(c: MachineCloud, server: Listed, networkKnown: bool, ghost since: Own)
      returns (r: Result<(), Failure>)
    requires c.Valid() && Downward(since, c.own) && Held(c.own, server)
    requires forall k | k in server.volumes :: server.volumes[k].boot ==>
              k == "0" && server.volumes[k].id !in since.mine.keep
    requires server.power == Stopped ==> !SomeTerminating(since.mine)
    requires server.id in since.mine.servers
    modifies c`own, c`log, c`failures
    ensures c.Valid() && Extends(old(c.log), c.log) && c.own.mine.teardown && c.own.mine.keep == since.mine.keep
    ensures r.Ok? ==> Unlisted(c.own) && c.own.mine.ips == map[] && forall s | s in c.own.mine.servers ::
              c.own.mine.servers[s].power == Terminating
    ensures r.Ok? && server.power == Stopped ==>
              c.own.mine.servers == map[] && c.own.mine.volumes == since.mine.volumes - BootVolumes(server.volumes)
    ensures c.cfg.controlPlane && c.cfg.hasPN && since.mine.nics == map[] ==> r.Err? && Downward(since, c.own)
    ensures r.Err? && r.error != ApiFailure ==>
              if r.error == ServerGone then SomeTerminating(since.mine) else Blocked(c.cfg, since, networkKnown)
    ensures c.cfg.controlPlane && c.cfg.hasPN ==>
              (r.Err? && Downward(since, c.own)) || (networkKnown && AddressSeen(old(c.log), c.log))
    ensures c.failures >= old(c.failures) + (if r == Err(ApiFailure) then 1 else 0)
  {
    hide IsRun, Downward, Drift, Held, Invariant, Cleared, IsOff, BootVolumes, SomeTerminating, Blocked, AddressSeen;
    ghost var o, log := c.own, c.log;
    DownIsTearingDown(since, o);
    var acl := RemoveAcl(c);
    ghost var p := c.own;
    DownwardIsTransitive(since, o, p);
    DownIsTearingDown(since, p);
    if acl.Err? && acl.error != NotFound {
      return Err(acl.error);
    }
    HeldDown(o, p, server);
    ghost var mid := c.log;
    var pool := LeavePool(c, server, networkKnown);
    ghost var q := c.own;
    DownwardIsTransitive(since, p, q);
    DownIsTearingDown(since, q);
    DownIsTearingDown(p, q);
    if pool.Err? {
      if pool.error != ApiFailure { BlockedDown(c.cfg, since, p, networkKnown); }
      return Err(pool.error);
    }
    ghost var seen := c.log;
    NoNicsComeBack(since, p);
    HeldDown(p, q, server);
    r := Dismantle(c, server, since);
    if c.cfg.controlPlane && c.cfg.hasPN { SeenStays(log, mid, seen, c.log); }
  }

  lemma NoNicsComeBack(o: Own, p: Own)
    requires Downward(o, p)
    ensures o.mine.nics == map[] ==> p.mine.nics == map[]
  {
    assert o.mine.nics == map[] ==> forall n :: n !in p.mine.nics;
  }

  /** The part of Delete after the load balancer: the IP, the volumes, the server. */
  method Dismantle(c: MachineCloud, server: Listed, ghost since: Own) returns (r: Result<(), Failure>)
    requires c.Valid() && Downward(since, c.own) && Held(c.own, server) && Unlisted(c.own)
    requires forall k | k in server.volumes :: server.volumes[k].boot ==>
              k == "0" && server.volumes[k].id !in since.mine.keep
    requires server.power == Stopped ==> !SomeTerminating(since.mine)
    requires server.id in since.mine.servers
    modifies c`own, c`log, c`failures
    ensures c.Valid() && Extends(old(c.log), c.log) && c.own.mine.teardown && c.own.mine.keep == since.mine.keep
    ensures r.Err? ==> r.error == ApiFailure || (r.error == ServerGone && SomeTerminating(since.mine))
    ensures r.Ok? ==> Unlisted(c.own) && c.own.mine.ips == map[] && forall s | s in c.own.mine.servers ::
              c.own.mine.servers[s].power == Terminating
    ensures r.Ok? && server.power == Stopped ==>
              c.own.mine.servers == map[] && c.own.mine.volumes == since.mine.volumes - BootVolumes(server.volumes)
    ensures c.failures >= old(c.failures) + (if r == Err(ApiFailure) then 1 else 0)
  {
    hide IsRun, Downward, Drift, Held, Invariant, Cleared, DataIsOff, BootVolumes, SomeTerminating, Unlisted;
    ghost var o := c.own;
    DownIsTearingDown(since, o);
    var ip := ReleaseIP(c, server);
    ghost var p := c.own;
    DownwardIsTransitive(since, o, p);
    DownIsTearingDown(since, p);
    if ip.Err? {
      return Err(ip.error);
    }
    var data := DetachData(c, server);
    ghost var q := c.own;
    DownwardIsTransitive(since, p, q);
    DownIsTearingDown(since, q);
    if data.Err? {
      return Err(data.error);
    }
    NowCleared(o, p, q, server);
    if server.power == Stopped {
      VolumesWereKept(since, q);
      r := DeleteStopped(c, server);
    } else {
      if server.id !in q.mine.servers { GoneIsTerminating(since, q, server.id); }
      r := TerminateServer(c, server);
    }
  }

  lemma GoneIsTerminating(o: Own, p: Own, s: nat)
    requires Downward(o, p) && s in o.mine.servers && s !in p.mine.servers
    ensures SomeTerminating(o.mine)
  {
    assert Leaving(o.mine, s);
  }

  lemma NowCleared(o: Own, p: Own, q: Own, l: Listed)
    requires Held(o, l) && Unlisted(o) && Downward(o, p) && p.mine.ips == map[] && Downward(p, q)
              && DataIsOff(q.mine, l)
    ensures Cleared(q, l)
  {
    HeldDown(o, p, l);
    HeldDown(p, q, l);
    DownIsTearingDown(o, p);
    DownIsTearingDown(p, q);
    hide Held, Downward, DataIsOff;
    assert q.mine.ips == map[] by { assert forall i :: i !in q.mine.ips; }
  }

  lemma VolumesWereKept(o: Own, p: Own)
    requires Downward(o, p)
    ensures !SomeTerminating(o.mine) ==> p.mine.volumes == o.mine.volumes
  {
  }

  /** Delete run again until it succeeds. Whatever each attempt did before it was
      cut off, success leaves no entry, and no IP either if there was a server.
      `known` says for each attempt whether the status of the cluster holds the
      network. Any error but that of a request is due to a state in which a
      control-plane machine was blocked, and without an address none succeeds. */
  method RetryDelete(c: MachineCloud, known: seq<bool>) returns (r: Result<(), Failure>)
    requires c.Valid()
    modifies c`own, c`log, c`failures
    ensures c.Valid() && Extends(old(c.log), c.log)
    ensures r.Ok? ==> Unlisted(c.own) && forall s | s in c.own.mine.servers ::
              c.own.mine.servers[s].power == Terminating
    ensures r.Ok? ==> c.own.mine.ips == if old(c.own).mine.servers == map[] then old(c.own).mine.ips else map[]
    ensures r.Ok? && !old(c.own).mine.teardown ==> DataVolumes(old(c.own).mine) <= c.own.mine.volumes
    ensures r.Ok? && !old(c.own).mine.teardown ==> DataStays(old(c.own).mine, c.own.mine)
    ensures IsStuck(c.cfg, old(c.own)) ==> r.Err? && IsStuck(c.cfg, c.own)
    ensures r.Ok? && Standing(c.cfg, old(c.own)) ==> Reached(old(c.log), c.log, known)
    ensures r.Err? && r.error != ApiFailure ==> known != [] && BlockedOnce(c.cfg, old(c.log), c.log, known[|known| - 1])
    ensures c.failures >= old(c.failures)
    ensures known != [] && r == Err(ApiFailure) ==> c.failures > old(c.failures)
  {
    hide Step, Invariant, Apply, DataVolumes, LacksItsNic, BootVolumes, Standing, SomeTerminating, Blocked, BlockedOnce,
      AddressSeen, Reached, Unlisted, Hindered, DataStays, GoesByItsAddress, IsStuck;
    r := Err(ApiFailure);
    ghost var o, start := c.own, c.log;
    ghost var keep := Apply(o, BeginTeardown).mine.keep;
    for i := 0 to |known|
      invariant c.Valid() && Extends(old(c.log), c.log)
      invariant i == 0 ==> c.own == o
      invariant i > 0 ==> c.own.mine.teardown && c.own.mine.keep == keep && r.Err?
      invariant o.mine.servers == map[] ==> c.own.mine.servers == map[] && c.own.mine.ips == o.mine.ips
      invariant o.mine.servers != map[] ==> GoesLast(c.own)
      invariant IsStuck(c.cfg, o) ==> IsStuck(c.cfg, c.own)
      invariant Standing(c.cfg, o) ==> Standing(c.cfg, c.own) || Reached(start, c.log, known[..i])
      invariant c.failures >= old(c.failures) && (i > 0 && r == Err(ApiFailure) ==> c.failures > old(c.failures))
      invariant r.Err? && (r.error != ApiFailure ==> i > 0 && BlockedOnce(c.cfg, start, c.log, known[i - 1]))
    {
      ghost var before := c.log;
      ghost var p := c.own;
      assert before[|before| - 1] == p;
      if i > 0 { TeardownOnce(p); }
      if Standing(c.cfg, p) { StandingHasAServer(c.cfg, p); }
      r := Delete(c, known[i]);
      AddressDecides(c.cfg, p, known[i], r, c.own, AddressSeen(before, c.log));
      if p.mine.servers != map[] { StillGoesLast(c, before); }
      if r.Err? && r.error != ApiFailure {
        HinderedAtTheStart(c.cfg, p, known[i], r, c.own);
        BlockedHere(c, start, before, known[i]);
      }
      if (known[i] && AddressSeen(before, c.log)) || Reached(start, before, known[..i]) {
        ReachedStays(start, before, c.log, known, i);
      }
      if r.Ok? {
        InvariantListsNothing(c.cfg, c.own);
        KeptVolumesAreThere(c.cfg, o, c.own);
        DataVolumesStay(o.mine, c.own.mine);
        if Reached(start, c.log, known[..i + 1]) { ReachedInAll(start, c.log, known, i + 1); }
        return;
      }
    }
  }

  /** Some attempt knew the network, and since then some address was assigned. */
  ghost predicate Reached(before: seq<Own>, log: seq<Own>, known: seq<bool>) {
    true in known && AddressSeen(before, log)
  }

  lemma ReachedStays(before: seq<Own>, mid: seq<Own>, log: seq<Own>, known: seq<bool>, i: nat)
    requires |before| <= |mid| && Extends(mid, log) && i < |known|
    requires (known[i] && AddressSeen(mid, log)) || Reached(before, mid, known[..i])
    ensures Reached(before, log, known[..i + 1])
  {
    hide AddressSeen;
    assert known[..i + 1] == known[..i] + [known[i]];
    if known[i] && AddressSeen(mid, log) {
      SeenStays(before, mid, log, log);
    } else {
      SeenStays(before, before, mid, log);
    }
  }

  lemma ReachedInAll(before: seq<Own>, log: seq<Own>, known: seq<bool>, i: nat)
    requires i <= |known| && Reached(before, log, known[..i])
    ensures Reached(before, log, known)
  {
    hide AddressSeen;
    assert known == known[..i] + known[i..];
  }

  lemma HinderedAtTheStart(cfg: Config, o: Own, networkKnown: bool, r: Result<(), Failure>, p: Own)
    requires r.Err? && r.error != ApiFailure
    requires exists seen :: GoesByItsAddress(cfg, o, networkKnown, r, p, seen)
    ensures Hindered(cfg, o, networkKnown)
  {
    hide Blocked, SomeTerminating;
  }

  lemma AddressDecides(cfg: Config, o: Own, networkKnown: bool, r: Result<(), Failure>, p: Own, seen: bool)
    requires GoesByItsAddress(cfg, o, networkKnown, r, p, seen)
    ensures IsStuck(cfg, o) ==> r.Err? && IsStuck(cfg, p)
    ensures Standing(cfg, o) ==> Standing(cfg, p) || (networkKnown && seen)
    ensures Standing(cfg, o) && r.Ok? ==> networkKnown && seen
  {
    hide Blocked, SomeTerminating;
  }

  lemma StandingHasAServer(cfg: Config, o: Own)
    requires Standing(cfg, o)
    ensures cfg.controlPlane && cfg.hasPN && o.mine.servers != map[]
  {
  }

  /** Every volume but the boot volume that was attached is still there. */
  predicate DataStays(a: Mine, b: Mine) {
    forall s, k | s in a.servers && k in a.servers[s].volumes && !a.servers[s].volumes[k].boot ::
      a.servers[s].volumes[k].id in b.volumes
  }

  lemma DataVolumesStay(a: Mine, b: Mine)
    ensures DataVolumes(a) <= b.volumes ==> DataStays(a, b)
  {
    forall s, k | s in a.servers && k in a.servers[s].volumes && !a.servers[s].volumes[k].boot
      ensures a.servers[s].volumes[k].id in DataVolumes(a)
    {
    }
  }

  predicate GoesLast(o: Own) {
    o.mine.servers == map[] ==> o.mine.ips == map[]
  }

  lemma TeardownOnce(o: Own)
    requires o.mine.teardown
    ensures Apply(o, BeginTeardown) == o
  {
  }

  lemma StillGoesLast(c: MachineCloud, before: seq<Own>)
    requires c.Valid() && |before| > 0 && Extends(before, c.log) && before[|before| - 1].mine.servers != map[]
    ensures GoesLast(c.own)
  {
    hide IsRun, Invariant;
    var i, j := |before| - 1, |c.log| - 1;
    assert c.log[i] == before[i];
    TheServerGoesLast(c.cfg, c.log, i, j);
  }

  lemma InvariantListsNothing(cfg: Config, o: Own)
    requires Invariant(cfg, o)
    ensures o.mine.servers == map[] ==> Unlisted(o)
  {
    if o.mine.servers == map[] { NothingListedWithoutAServer(cfg, o); }
  }

  lemma KeptVolumesAreThere(cfg: Config, o: Own, p: Own)
    requires Invariant(cfg, p) && p.mine.keep == Apply(o, BeginTeardown).mine.keep
    ensures !o.mine.teardown ==> DataVolumes(o.mine) <= p.mine.volumes
  {
    hide ServerInvariant, SharedInvariant, DataVolumes;
  }
}
