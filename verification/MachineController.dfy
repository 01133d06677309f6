// The machine controller around the reconciler: finalizer, readiness gate and
// provider ID, with a persist that may fail or lose its reply.
module MachineController {
  import opened Wrappers
  import opened Api
  import opened MachineProtocol
  import opened MachineCloud
  import opened Machines
  import opened MachineTeardown
  import opened Scope
  import Decimal
  import Webhook

  datatype Done = Finished | Requeue | Failed

  predicate Nothing(o: Own) {
    o.mine.ips == map[] && o.mine.servers == map[]
  }

  /** Torn down: no entry is left, and a server only on its way out. */
  predicate Released(o: Own) {
    o.mine.teardown && Unlisted(o) && forall s | s in o.mine.servers :: o.mine.servers[s].power == Terminating
  }

  /** Writing a provider ID is an update that the webhook admits exactly if there
      was none or this one. */
  lemma FirstProviderIDIsAllowed(spec: MachineSpec, id: string)
    ensures Webhook.MachineUpdateIsAllowed(spec, spec.(providerID := Some(id))) <==>
              spec.providerID.None? || spec.providerID == Some(id)
  {
  }

  function ServerText(zone: string, server: nat): string {
    ProviderID(zone, Decimal.Print(server))
  }

  lemma ServerTextIs(zone: string, server: nat)
    ensures ServerText(zone, server) == "scaleway://instance/" + zone + "/" + Decimal.Print(server)
  {
  }

  lemma ServerTextsAreTheirOwn(zone: string, s: nat, t: nat)
    ensures ServerText(zone, s) == ServerText(zone, t) ==> s == t
  {
    ProviderIDsAreTheirOwn(zone, Decimal.Print(s), Decimal.Print(t));
    Decimal.PrintIsPlain(s);
    Decimal.PrintIsPlain(t);
  }

  lemma ExcuseOfAPass(cfg: Config, error: Failure, networkKnown: bool, bootstrapReady: bool, before: seq<Own>,
      log: seq<Own>)
    requires Excused(cfg, error, networkKnown, bootstrapReady, before, log)
    ensures if error == PrivateIPNotFound || error == BootstrapNotReady
            then !bootstrapReady || (cfg.hasPN && AddressMissed(before, log))
            else (cfg.hasPN && !networkKnown) || (!cfg.hasPN && !cfg.needsIP) || BalancerMissed(before, log)
  {
  }

  lemma HasItsIP(cfg: Config, o: Own, s: nat)
    requires Invariant(cfg, o) && !o.mine.teardown && s in o.mine.servers
    ensures o.mine.servers[s].ip.Some? <==> cfg.needsIP
  {
    assert ServerInvariant(cfg, o.mine, s, o.mine.servers[s]);
  }

  /** The stored machine object. */
  class ScalewayMachine {
    const cloud: MachineCloud
    const zone: string
    var finalizer: bool
    var spec: MachineSpec
    var ready: bool
    // Somebody else wrote the provider ID.
    ghost var given: bool
    // Patches that did not succeed.
    ghost var failures: nat

    /** Nothing is in the cloud that no finalizer guards, and a stored provider
        ID is that of the one server, unless somebody else wrote it. */
    ghost predicate Valid()
      reads this, cloud
    {
      && cloud.Valid() && cloud.cfg.needsIP == NeedsPublicIP(spec)
      && (finalizer || Nothing(cloud.own) || Released(cloud.own))
      && (spec.providerID.Some? && !given && !cloud.own.mine.teardown ==>
            exists s :: s in cloud.own.mine.servers && spec.providerID.value == ServerText(zone, s))
    }

    constructor (spec: MachineSpec, zone: string, hasPN: bool, controlPlane: bool)
      ensures Valid() && fresh(cloud) && !finalizer && cloud.own == INITIAL && this.spec == spec
      ensures cloud.cfg == Config(NeedsPublicIP(spec), hasPN, controlPlane)
    {
      cloud := new MachineCloud(Config(NeedsPublicIP(spec), hasPN, controlPlane));
      this.zone := zone;
      this.spec, finalizer, ready, given, failures := spec, false, false, spec.providerID.Some?, 0;
    }

    /** An update by a user, which the webhook may refuse. */
    method Edit(next: MachineSpec) returns (ok: bool)
      requires Valid()
      modifies this`spec, this`given
      ensures Valid() && ok == Webhook.MachineUpdateIsAllowed(old(spec), next)
      ensures spec == if ok then next else old(spec)
    {
      hide Invariant, IsRun, Released, Nothing, ServerText;
      var errors := Webhook.EnforceMachineImmutability(spec, next);
      ok := errors == [];
      if ok {
        given := given || (spec.providerID.None? && next.providerID.Some?);
        spec := next;
      }
    }

    /** reconcileNormal. Creates nothing before the finalizer is stored and the
        cluster's infrastructure is ready. What it stores is an update that the
        webhook admits, so a stored provider ID never changes; the webhook gets in
        its way only if somebody else wrote another provider ID. */
    method ReconcileNormal(infrastructureReady: bool, networkKnown: bool, bootstrapReady: bool)
      returns (done: Done, ghost refused: bool)
      requires Valid() && !cloud.own.mine.teardown
      modifies this, cloud`own, cloud`log, cloud`failures
      ensures Valid() && Extends(old(cloud.log), cloud.log) && !cloud.own.mine.teardown
      ensures old(finalizer) ==> finalizer
      ensures given == old(given) && Webhook.MachineUpdateIsAllowed(old(spec), spec)
      ensures refused ==> given && done == Failed && spec == old(spec)
                          && forall s | s in cloud.own.mine.servers ::
                              spec.providerID.Some? && spec.providerID.value != ServerText(zone, s)
      ensures !finalizer || !infrastructureReady ==> cloud.own == old(cloud.own)
      ensures done == Finished ==> finalizer && ready && infrastructureReady
      ensures done == Finished ==> exists s :: cloud.own.mine.servers.Keys == {s} && IsRunning(s)
      ensures done == Failed ==>
                || failures + cloud.failures > old(failures) + old(cloud.failures) || refused
                || (cloud.cfg.hasPN && !networkKnown) || (!cloud.cfg.hasPN && spec.publicIP != Some(true))
                || BalancerMissed(old(cloud.log), cloud.log)
      ensures done == Requeue ==>
                !infrastructureReady || !bootstrapReady || (cloud.cfg.hasPN && AddressMissed(old(cloud.log), cloud.log))
    {
      hide Invariant, IsRun, Released, ServerText, BalancerMissed, AddressMissed, Nothing, Excused, LetIn, IsNodeIP,
        IsPublicIP, IsPrivateIP, Decimal.Print;
      refused := false;
      if !finalizer {
        var patched: Outcome := *;
        finalizer := patched != NoEffect;
        if patched != Success {
          failures := failures + 1;
          return Failed, false;
        }
      }
      if !infrastructureReady {
        return Requeue, false;
      }
      ghost var log := cloud.log;
      var up := Reconcile(cloud, networkKnown, bootstrapReady);
      if up.Err? {
        if up.error != ApiFailure {
          ExcuseOfAPass(cloud.cfg, up.error, networkKnown, bootstrapReady, log, cloud.log);
        }
        return if up.error == PrivateIPNotFound || up.error == BootstrapNotReady then Requeue else Failed, false;
      }
      assert up.value.server in cloud.own.mine.servers.Keys;
      HasItsIP(cloud.cfg, cloud.own, up.value.server);
      done, refused := Store(up.value.server);
    }

    /** The patch that stores the provider ID and readiness. */
    method Store(server: nat) returns (done: Done, ghost refused: bool)
      requires Valid() && finalizer && !cloud.own.mine.teardown
      requires cloud.own.mine.servers.Keys == {server} && cloud.own.mine.servers[server].started
      requires cloud.own.mine.servers[server].ip.Some? <==> cloud.cfg.needsIP
      modifies this`spec, this`ready, this`failures
      ensures Valid() && Webhook.MachineUpdateIsAllowed(old(spec), spec)
      ensures refused ==> given && done == Failed && spec == old(spec)
                          && spec.providerID.Some? && spec.providerID.value != ServerText(zone, server)
      ensures done == Finished ==> ready && IsRunning(server)
      ensures failures >= old(failures) && done in {Finished, Failed}
      ensures done == Failed ==> failures > old(failures) || refused
    {
      hide Invariant, IsRun, Released, ServerText, Nothing, Decimal.Print, MachineCloud.Valid;
      var next := spec.(providerID := Some(ServerText(zone, server)));
      FirstProviderIDIsAllowed(spec, next.providerID.value);
      ServerTextIs(zone, server);
      var errors := Webhook.EnforceMachineImmutability(spec, next);
      if errors != [] {
        return Failed, true;
      }
      var patched: Outcome := *;
      if patched != NoEffect {
        spec, ready := next, true;
      }
      failures := failures + (if patched == Success then 0 else 1);
      done, refused := if patched == Success then Finished else Failed, false;
    }

    /** The server was started, its public IP exists exactly if the declaration asks
        for one, and the declaration names it in full. */
    predicate IsRunning(s: nat)
      reads this`spec, cloud`own
    {
      && s in cloud.own.mine.servers && cloud.own.mine.servers[s].started
      && (cloud.own.mine.servers[s].ip.Some? <==> spec.publicIP == Some(true))
      && spec.providerID == Some("scaleway://instance/" + zone + "/" + Decimal.Print(s))
    }

    /** reconcileDelete. The finalizer goes only after a Delete that succeeded:
        then no entry is left, no server that is not on its way out, and no IP
        either, unless the machine never had a server. A control-plane machine on
        a Private Network keeps it as long as its server stays and no address of it
        was seen. */
    method ReconcileDelete(networkKnown: bool) returns (done: Done)
      requires Valid() && finalizer
      modifies this, cloud`own, cloud`log, cloud`failures
      ensures Valid() && Extends(old(cloud.log), cloud.log) && cloud.own.mine.teardown
      ensures !finalizer ==> Released(cloud.own)
      ensures !finalizer ==>
                cloud.own.mine.ips == if old(cloud.own).mine.servers == map[] then old(cloud.own).mine.ips else map[]
      ensures done == Finished ==> !finalizer
      ensures LacksItsNic(cloud.cfg, old(cloud.own)) ==> finalizer
      ensures Standing(cloud.cfg, old(cloud.own)) && !finalizer ==>
                networkKnown && AddressSeen(old(cloud.log), cloud.log)
      ensures done == Failed ==>
                || failures + cloud.failures > old(failures) + old(cloud.failures)
                || Hindered(cloud.cfg, old(cloud.own), networkKnown)
      ensures done in {Finished, Failed}
    {
      hide Invariant, IsRun, LacksItsNic, AddressSeen, SomeTerminating, Blocked;
      var deleted := Delete(cloud, networkKnown);
      if deleted.Err? {
        return Failed;
      }
      InvariantListsNothing(cloud.cfg, cloud.own);
      var patched: Outcome := *;
      finalizer := patched == NoEffect;
      failures := failures + (if patched == Success then 0 else 1);
      done := if patched == Success then Finished else Failed;
    }
  }
}
