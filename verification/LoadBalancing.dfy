// The backends and frontends of the control-plane load balancer.
module LoadBalancing {
  import opened Wrappers
  import opened Api

  const CONTROL_PLANE := "control-plane"

  /** The port of the control plane, behind and in front of the load balancer. */
  const CONTROL_PLANE_PORT := 6443

  datatype Backend = Backend(name: string, port: int, pool: set<string>)

  datatype Frontend = Frontend(name: string, port: int, backend: nat)

  type Backends = map<nat, Backend>

  type Frontends = map<nat, Frontend>

  predicate IsBackend(backends: Backends, id: nat) {
    id in backends && backends[id].name == CONTROL_PLANE
  }

  predicate IsFrontend(frontends: Frontends, id: nat) {
    id in frontends && frontends[id].name == CONTROL_PLANE
  }

  /** At most one control-plane backend and frontend, on the control-plane port,
      and that frontend sends its traffic to that backend. */
  ghost predicate Wired(backends: Backends, frontends: Frontends) {
    && (forall i, j | IsBackend(backends, i) && IsBackend(backends, j) :: i == j)
    && (forall i, j | IsFrontend(frontends, i) && IsFrontend(frontends, j) :: i == j)
    && (forall i | IsBackend(backends, i) :: backends[i].port == CONTROL_PLANE_PORT)
    && (forall i | IsFrontend(frontends, i) ::
        IsBackend(backends, frontends[i].backend) && frontends[i].port == CONTROL_PLANE_PORT)
  }

  lemma DroppingABackend(backends: Backends, frontends: Frontends, id: nat)
    requires Wired(backends, frontends) && !IsBackend(backends, id)
    ensures Wired(backends - {id}, frontends)
  {
    assert forall i :: IsBackend(backends - {id}, i) <==> IsBackend(backends, i);
  }

  lemma AddingTheBackend(backends: Backends, frontends: Frontends, id: nat, backend: Backend)
    requires Wired(backends, frontends) && id !in backends
    requires backend.name == CONTROL_PLANE && backend.port == CONTROL_PLANE_PORT && forall i :: !IsBackend(backends, i)
    ensures Wired(backends[id := backend], frontends)
  {
    var after := backends[id := backend];
    assert forall i :: IsBackend(after, i) ==> i == id || IsBackend(backends, i);
  }

  lemma DroppingAFrontend(backends: Backends, frontends: Frontends, id: nat)
    requires Wired(backends, frontends) && !IsFrontend(frontends, id)
    ensures Wired(backends, frontends - {id})
  {
    assert forall i :: IsFrontend(frontends - {id}, i) <==> IsFrontend(frontends, i);
  }

  lemma AddingTheFrontend(backends: Backends, frontends: Frontends, id: nat, frontend: Frontend)
    requires Wired(backends, frontends) && id !in frontends && IsBackend(backends, frontend.backend)
    requires frontend.name == CONTROL_PLANE && frontend.port == CONTROL_PLANE_PORT && forall i ::
              !IsFrontend(frontends, i)
    ensures Wired(backends, frontends[id := frontend])
  {
    var after := frontends[id := frontend];
    assert forall i :: IsFrontend(after, i) ==> i == id || IsFrontend(frontends, i);
  }

  // ---- Machines at the pool ----

  /** What a machine reconciler does to the pool of the control-plane backend. */
  datatype Edit = Join(address: string) | Leave(address: string)

  function Play(pool: set<string>, edit: Edit): set<string> {
    match edit
    case Join(a) => pool + {a}
    case Leave(a) => pool - {a}
  }

  function Played(pool: set<string>, edits: seq<Edit>): set<string> {
    if edits == [] then pool else Play(Played(pool, edits[..|edits| - 1]), edits[|edits| - 1])
  }

  lemma {:induction false} PlayedInTurn(pool: set<string>, one: seq<Edit>, other: seq<Edit>)
    ensures Played(pool, one + other) == Played(Played(pool, one), other)
  {
    if other == [] {
      assert one + other == one;
    } else {
      var n := |other| - 1;
      assert (one + other)[..|one + other| - 1] == one + other[..n];
      PlayedInTurn(pool, one, other[..n]);
    }
  }

  /** Only the pools of control-plane backends differ, and by these edits. */
  ghost predicate EditedOnly(a: Backends, b: Backends, edits: seq<Edit>) {
    && b.Keys == a.Keys
    && forall id | id in a ::
        b[id] == if a[id].name == CONTROL_PLANE then a[id].(pool := Played(a[id].pool, edits)) else a[id]
  }

  lemma EditedInTurn(a: Backends, b: Backends, c: Backends, one: seq<Edit>, other: seq<Edit>)
    requires EditedOnly(a, b, one) && EditedOnly(b, c, other)
    ensures EditedOnly(a, c, one + other)
  {
    forall id | id in a && a[id].name == CONTROL_PLANE
        ensures c[id] == a[id].(pool := Played(a[id].pool, one + other)) {
      PlayedInTurn(a[id].pool, one, other);
    }
  }

  lemma EditedStaysWired(a: Backends, b: Backends, frontends: Frontends, edits: seq<Edit>)
    requires EditedOnly(a, b, edits)
    ensures forall id :: IsBackend(b, id) <==> IsBackend(a, id)
    ensures Wired(a, frontends) ==> Wired(b, frontends)
  {
  }

  /** Dropping what is no control-plane backend, before or after the edits. */
  lemma EditedThenDropped(a: Backends, b: Backends, gone: set<nat>, edits: seq<Edit>)
    requires EditedOnly(a, b, edits)
    ensures EditedOnly(a - gone, b - gone, edits)
  {
  }

  /** A listing: every key once, in some order. */
  ghost predicate Lists<T>(ids: seq<nat>, m: map<nat, T>) {
    && (forall i, j | 0 <= i < j < |ids| :: ids[i] != ids[j])
    && (forall id :: id in ids <==> id in m)
  }

  class LoadBalancer {
    var backends: Backends
    var frontends: Frontends
    var nextId: nat
    // What machines did to the pool so far, and how many requests did not succeed.
    ghost var edits: seq<Edit>
    ghost var failures: nat

    ghost predicate Valid()
      reads this
    {
      && (forall id | id in backends :: id < nextId)
      && (forall id | id in frontends :: id < nextId)
      && Wired(backends, frontends)
    }

    /** Any number of edits by machine reconcilers, who look the backend up by name. */
    method MachinesEdit() returns (ghost es: seq<Edit>)
      requires Valid()
      modifies this`backends, this`edits
      ensures Valid() && edits == old(edits) + es && EditedOnly(old(backends), backends, es)
    {
      hide Wired, EditedOnly;
      es := [];
      NoEdits(backends);
      var n: nat :| true;
      for i := 0 to n
        invariant Valid() && edits == old(edits) + es && EditedOnly(old(backends), backends, es)
      {
        if id :| id in backends && IsBackend(backends, id) {
          var edit: Edit :| true;
          ghost var before := backends;
          OneEdit(backends, frontends, id, edit);
          backends := backends[id := backends[id].(pool := Play(backends[id].pool, edit))];
          EditedInTurn(old(backends), before, backends, es, [edit]);
          edits, es := edits + [edit], es + [edit];
        }
      }
    }

    method ListBackends() returns (r: Result<seq<nat>, RequestFailure>, ghost es: seq<Edit>)
      requires Valid()
      modifies this`backends, this`edits, this`failures
      ensures Valid() && edits == old(edits) + es && EditedOnly(old(backends), backends, es)
      ensures r.Ok? ==> Lists(r.value, backends)
      ensures failures == old(failures) + (if r.Ok? then 0 else 1)
    {
      hide Wired, EditedOnly;
      es := MachinesEdit();
      var reply: Outcome := *;
      if reply != Success {
        failures := failures + 1;
        return Err(RequestFailed), es;
      }
      var ids := Enumerate(backends.Keys);
      r := Ok(ids);
    }

    method ListFrontends() returns (r: Result<seq<nat>, RequestFailure>, ghost es: seq<Edit>)
      requires Valid()
      modifies this`backends, this`edits, this`failures
      ensures Valid() && edits == old(edits) + es && EditedOnly(old(backends), backends, es)
      ensures r.Ok? ==> Lists(r.value, frontends)
      ensures failures == old(failures) + (if r.Ok? then 0 else 1)
    {
      hide Wired, EditedOnly;
      es := MachinesEdit();
      var reply: Outcome := *;
      if reply != Success {
        failures := failures + 1;
        return Err(RequestFailed), es;
      }
      var ids := Enumerate(frontends.Keys);
      r := Ok(ids);
    }

    method DeleteBackend(id: nat) returns (r: Result<(), RequestFailure>, ghost es: seq<Edit>)
      requires Valid() && id in backends && !IsBackend(backends, id)
      modifies this`backends, this`edits, this`failures
      ensures Valid() && edits == old(edits) + es
      ensures EditedOnly(old(backends) - {id}, backends, es) || (r.Err? && EditedOnly(old(backends), backends, es))
      ensures failures == old(failures) + (if r.Ok? then 0 else 1)
    {
      hide Wired, EditedOnly;
      es := MachinesEdit();
      EditedStaysWired(old(backends), backends, frontends, es);
      EditedThenDropped(old(backends), backends, {id}, es);
      DroppingABackend(backends, frontends, id);
      var outcome: Outcome := *;
      if outcome != Success {
        failures := failures + 1;
      }
      if outcome != NoEffect {
        backends := backends - {id};
      }
      r := if outcome == Success then Ok(()) else Err(RequestFailed);
    }

    method CreateBackend(name: string, port: int) returns (r: Result<nat, RequestFailure>)
      requires Valid() && name == CONTROL_PLANE && port == CONTROL_PLANE_PORT && forall i :: !IsBackend(backends, i)
      modifies this`backends, this`nextId, this`failures
      ensures Valid() && old(nextId) !in old(backends)
      ensures backends == old(backends)[old(nextId) := Backend(name, port, {})] || (r.Err? && backends == old(backends))
      ensures r.Ok? ==> r.value == old(nextId)
      ensures failures == old(failures) + (if r.Ok? then 0 else 1)
    {
      hide Wired;
      AddingTheBackend(backends, frontends, nextId, Backend(name, port, {}));
      var outcome: Outcome := *;
      if outcome != Success {
        failures := failures + 1;
      }
      var id := nextId;
      if outcome != NoEffect {
        backends, nextId := backends[id := Backend(name, port, {})], nextId + 1;
      }
      r := if outcome == Success then Ok(id) else Err(RequestFailed);
    }

    method DeleteFrontend(id: nat) returns (r: Result<(), RequestFailure>, ghost es: seq<Edit>)
      requires Valid() && id in frontends && !IsFrontend(frontends, id)
      modifies this`frontends, this`backends, this`edits, this`failures
      ensures Valid() && edits == old(edits) + es && EditedOnly(old(backends), backends, es)
      ensures frontends == old(frontends) - {id} || (r.Err? && frontends == old(frontends))
      ensures failures == old(failures) + (if r.Ok? then 0 else 1)
    {
      hide Wired, EditedOnly;
      es := MachinesEdit();
      DroppingAFrontend(backends, frontends, id);
      var outcome: Outcome := *;
      if outcome != Success {
        failures := failures + 1;
      }
      if outcome != NoEffect {
        frontends := frontends - {id};
      }
      r := if outcome == Success then Ok(()) else Err(RequestFailed);
    }

    method CreateFrontend(name: string, port: int, backend: nat)
        returns (r: Result<nat, RequestFailure>, ghost es: seq<Edit>)
      requires Valid() && name == CONTROL_PLANE && port == CONTROL_PLANE_PORT && (forall i :: !IsFrontend(frontends, i))
                && IsBackend(backends, backend)
      modifies this`frontends, this`nextId, this`backends, this`edits, this`failures
      ensures Valid() && old(nextId) !in old(frontends)
      ensures edits == old(edits) + es && EditedOnly(old(backends), backends, es)
      ensures frontends == old(frontends)[old(nextId) := Frontend(name, port, backend)]
                || (r.Err? && frontends == old(frontends))
      ensures r.Ok? ==> r.value == old(nextId)
      ensures failures == old(failures) + (if r.Ok? then 0 else 1)
    {
      hide Wired, EditedOnly;
      es := MachinesEdit();
      EditedStaysWired(old(backends), backends, frontends, es);
      AddingTheFrontend(backends, frontends, nextId, Frontend(name, port, backend));
      var outcome: Outcome := *;
      if outcome != Success {
        failures := failures + 1;
      }
      var id := nextId;
      if outcome != NoEffect {
        frontends, nextId := frontends[id := Frontend(name, port, backend)], nextId + 1;
      }
      r := if outcome == Success then Ok(id) else Err(RequestFailed);
    }
  }

  method Enumerate(keys: set<nat>) returns (ids: seq<nat>)
    ensures (forall i, j | 0 <= i < j < |ids| :: ids[i] != ids[j]) && (forall id :: id in ids <==> id in keys)
  {
    ids := [];
    var todo := keys;
    while todo != {}
      invariant todo <= keys
      invariant forall i, j | 0 <= i < j < |ids| :: ids[i] != ids[j]
      invariant forall id :: id in ids <==> id in keys && id !in todo
      decreases todo
    {
      var id :| id in todo;
      todo, ids := todo - {id}, ids + [id];
    }
  }

  /** What deleting the strays leaves: only what has the name, and all of it. */
  lemma OnlyTheNamedBackend(backends: Backends, frontends: Frontends, ids: seq<nat>, gone: set<nat>, kept: Option<nat>)
    requires Wired(backends, frontends) && Lists(ids, backends)
    requires forall id | id in gone :: !IsBackend(backends, id)
    requires forall j | 0 <= j < |ids| :: IsBackend(backends, ids[j]) || ids[j] in gone
    requires if kept.Some? then IsBackend(backends, kept.value) else forall j | 0 <= j < |ids| ::
              !IsBackend(backends, ids[j])
    ensures (backends - gone).Keys == if kept.Some? then {kept.value} else {}
    ensures kept.None? ==> forall id :: !IsBackend(backends, id) && !IsBackend(backends - gone, id)
  {
    forall id | id in backends && id !in gone ensures kept == Some(id) {
      assert id in ids;
    }
    forall id | IsBackend(backends, id) ensures kept.Some? {
      assert id in ids;
    }
  }

  lemma NoEdits(backends: Backends)
    ensures EditedOnly(backends, backends, [])
  {
  }

  lemma OneEdit(backends: Backends, frontends: Frontends, id: nat, edit: Edit)
    requires Wired(backends, frontends) && IsBackend(backends, id)
    ensures var after := backends[id := backends[id].(pool := Play(backends[id].pool, edit))];
            EditedOnly(backends, after, [edit]) && Wired(after, frontends)
  {
    var after := backends[id := backends[id].(pool := Play(backends[id].pool, edit))];
    assert Played(backends[id].pool, [edit]) == Play(Played(backends[id].pool, []), edit);
    forall other | other in backends && backends[other].name == CONTROL_PLANE ensures other == id {
      assert IsBackend(backends, other);
    }
    assert EditedOnly(backends, after, [edit]);
    hide Wired, EditedOnly;
    EditedStaysWired(backends, after, frontends, [edit]);
  }

  // ---- First match and last match ----

  /** The lookup of the machines: the first backend with the name. */
  function FirstNamed(ids: seq<nat>, backends: Backends): Option<nat> {
    if ids == [] then None
    else if IsBackend(backends, ids[0]) then Some(ids[0])
    else FirstNamed(ids[1..], backends)
  }

  /** The choice of the cluster pass: the last backend with the name. */
  function LastNamed(ids: seq<nat>, backends: Backends): Option<nat> {
    if ids == [] then None
    else if IsBackend(backends, ids[|ids| - 1]) then Some(ids[|ids| - 1])
    else LastNamed(ids[..|ids| - 1], backends)
  }

  lemma {:induction false} FirstNamedIs(ids: seq<nat>, backends: Backends, id: nat)
    requires id in ids && IsBackend(backends, id)
    requires forall i, j | IsBackend(backends, i) && IsBackend(backends, j) :: i == j
    ensures FirstNamed(ids, backends) == Some(id)
  {
    if !IsBackend(backends, ids[0]) {
      assert id in ids[1..];
      FirstNamedIs(ids[1..], backends, id);
    }
  }

  lemma {:induction false} LastNamedIs(ids: seq<nat>, backends: Backends, id: nat)
    requires id in ids && IsBackend(backends, id)
    requires forall i, j | IsBackend(backends, i) && IsBackend(backends, j) :: i == j
    ensures LastNamed(ids, backends) == Some(id)
  {
    if !IsBackend(backends, ids[|ids| - 1]) {
      assert id in ids[..|ids| - 1];
      LastNamedIs(ids[..|ids| - 1], backends, id);
    }
  }

  /** Whatever the listing orders, machines and the cluster pass pick the same backend. */
  lemma BothLookupsAgree(one: seq<nat>, other: seq<nat>, backends: Backends, frontends: Frontends, id: nat)
    requires Wired(backends, frontends) && Lists(one, backends) && Lists(other, backends) && IsBackend(backends, id)
    ensures FirstNamed(one, backends) == LastNamed(other, backends) == Some(id)
  {
    FirstNamedIs(one, backends, id);
    LastNamedIs(other, backends, id);
  }

  // ---- The pass ----

  /** FindLoadBalancerBackendByNames: the first of the name in whatever listing. */
  method FindBackend(lb: LoadBalancer) returns (r: Result<Option<nat>, RequestFailure>, ghost es: seq<Edit>)
    requires lb.Valid()
    modifies lb`backends, lb`edits, lb`failures
    ensures lb.Valid() && lb.edits == old(lb.edits) + es && EditedOnly(old(lb.backends), lb.backends, es)
    ensures r.Ok? ==> exists ids :: Lists(ids, lb.backends) && r.value == FirstNamed(ids, lb.backends)
    ensures r.Ok? ==> if r.value.Some? then IsBackend(lb.backends, r.value.value) else forall id ::
              !IsBackend(lb.backends, id)
    ensures lb.failures >= old(lb.failures) + (if r.Ok? then 0 else 1)
  {
    hide Wired, EditedOnly;
    var listing;
    listing, es := lb.ListBackends();
    if listing.Err? {
      return Err(listing.error), es;
    }
    var ids := listing.value;
    var i := 0;
    while i < |ids| && lb.backends[ids[i]].name != CONTROL_PLANE
      invariant i <= |ids|
      invariant FirstNamed(ids, lb.backends) == FirstNamed(ids[i..], lb.backends)
      invariant forall j | 0 <= j < i :: !IsBackend(lb.backends, ids[j])
    {
      assert ids[i] in ids;
      assert ids[i..][1..] == ids[i + 1..];
      i := i + 1;
    }
    if i < |ids| {
      assert ids[i] in ids;
      return Ok(Some(ids[i])), es;
    }
    forall id ensures !IsBackend(lb.backends, id) {
      if id in lb.backends { assert id in ids; }
    }
    r := Ok(None);
  }

  /** The loop of ensureBackend: deletes what has another name, remembers the last of the name. */
  method DeleteStrayBackends(lb: LoadBalancer, ids: seq<nat>)
      returns (r: Result<Option<nat>, RequestFailure>, ghost es: seq<Edit>)
    requires lb.Valid() && Lists(ids, lb.backends)
    modifies lb`backends, lb`edits, lb`failures
    ensures lb.Valid() && lb.edits == old(lb.edits) + es
    ensures PoolsSurvive(old(lb.backends), lb.backends, es)
    ensures r.Ok? ==> r.value == LastNamed(ids, old(lb.backends))
    ensures r.Ok? && r.value.Some? ==> IsBackend(old(lb.backends), r.value.value)
    ensures r.Ok? && r.value.Some? ==> IsBackend(lb.backends, r.value.value) && lb.backends.Keys == {r.value.value}
    ensures r.Ok? && r.value.None? ==> lb.backends == map[] && forall id :: !IsBackend(old(lb.backends), id)
    ensures lb.failures >= old(lb.failures) + (if r.Ok? then 0 else 1)
  {
    ghost var snapshot, frontends := lb.backends, lb.frontends;
    ghost var gone: set<nat> := {};
    var backend: Option<nat> := None;
    es := [];
    NoEdits(snapshot);
    assert snapshot - gone == snapshot && Wired(snapshot, frontends);
    hide Wired, EditedOnly, PoolsSurvive, LastNamed, Lists, Swept, LoadBalancer.Valid;
    NothingSwept(ids, snapshot);
    for i := 0 to |ids|
      invariant lb.Valid() && lb.edits == old(lb.edits) + es && lb.failures >= old(lb.failures)
      invariant EditedOnly(snapshot - gone, lb.backends, es) && Swept(ids, snapshot, i, gone, backend)
    {
      SweptNext(ids, snapshot, i, gone, backend);
      SameName(snapshot, gone, lb.backends, es, ids[i]);
      if lb.backends[ids[i]].name == CONTROL_PLANE {
        backend := Some(ids[i]);
        continue;
      }
      var deleted, more := DeleteStray(lb, ids[i], snapshot, gone, es);
      es := es + more;
      if deleted.Err? {
        return Err(deleted.error), es;
      }
      gone := gone + {ids[i]};
    }
    AllSwept(ids, snapshot, frontends, gone, backend);
    StrayDeletesSpare(snapshot, gone, lb.backends, es);
    SameKeys(snapshot - gone, lb.backends, es);
    r := Ok(backend);
  }

  /** The loop has dealt with the first n of the listing. */
  ghost predicate Swept(ids: seq<nat>, snapshot: Backends, n: nat, gone: set<nat>, kept: Option<nat>) {
    && n <= |ids| && kept == LastNamed(ids[..n], snapshot)
    && (if kept.Some? then IsBackend(snapshot, kept.value) else forall j | 0 <= j < n :: !IsBackend(snapshot, ids[j]))
    && (forall j | 0 <= j < n :: IsBackend(snapshot, ids[j]) || ids[j] in gone)
    && (forall id | id in gone :: !IsBackend(snapshot, id))
    && (forall j | n <= j < |ids| :: ids[j] !in gone)
  }

  lemma NothingSwept(ids: seq<nat>, snapshot: Backends)
    ensures Swept(ids, snapshot, 0, {}, None)
  {
  }

  lemma SweptNext(ids: seq<nat>, snapshot: Backends, n: nat, gone: set<nat>, kept: Option<nat>)
    requires Lists(ids, snapshot) && n < |ids| && Swept(ids, snapshot, n, gone, kept)
    ensures ids[n] in snapshot && ids[n] !in gone && forall id | id in gone :: !IsBackend(snapshot, id)
    ensures if IsBackend(snapshot, ids[n]) then Swept(ids, snapshot, n + 1, gone, Some(ids[n]))
            else Swept(ids, snapshot, n + 1, gone + {ids[n]}, kept)
  {
    assert ids[n] in ids;
    assert ids[..n + 1][..n] == ids[..n];
  }

  lemma AllSwept(ids: seq<nat>, snapshot: Backends, frontends: Frontends, gone: set<nat>, kept: Option<nat>)
    requires Lists(ids, snapshot) && Wired(snapshot, frontends) && Swept(ids, snapshot, |ids|, gone, kept)
    ensures kept == LastNamed(ids, snapshot) && (kept.Some? ==> IsBackend(snapshot, kept.value) && kept.value !in gone)
    ensures (snapshot - gone).Keys == if kept.Some? then {kept.value} else {}
    ensures kept.None? ==> forall id :: !IsBackend(snapshot, id)
    ensures forall id | id in gone :: !IsBackend(snapshot, id)
  {
    assert ids[..|ids|] == ids;
    OnlyTheNamedBackend(snapshot, frontends, ids, gone, kept);
  }

  /** One delete of the loop. */
  method DeleteStray(lb: LoadBalancer, id: nat, ghost snapshot: Backends, ghost gone: set<nat>, ghost es: seq<Edit>)
    returns (r: Result<(), RequestFailure>, ghost more: seq<Edit>)
    requires lb.Valid() && EditedOnly(snapshot - gone, lb.backends, es) && id in lb.backends
              && !IsBackend(lb.backends, id)
    requires forall g | g in gone :: !IsBackend(snapshot, g)
    modifies lb`backends, lb`edits, lb`failures
    ensures lb.Valid() && lb.edits == old(lb.edits) + more
    ensures r.Ok? ==> EditedOnly(snapshot - (gone + {id}), lb.backends, es + more)
    ensures r.Err? ==> PoolsSurvive(snapshot, lb.backends, es + more)
    ensures lb.failures >= old(lb.failures) + (if r.Ok? then 0 else 1)
  {
    ghost var before := lb.backends;
    SameKeys(snapshot - gone, before, es);
    hide Wired, EditedOnly, PoolsSurvive;
    r, more := lb.DeleteBackend(id);
    DeletedOrNot(snapshot, gone, before, lb.backends, es, more, id);
    assert !IsBackend(snapshot, id) by { assert !IsBackend(snapshot - gone, id); }
    if EditedOnly(snapshot - gone, lb.backends, es + more) {
      StrayDeletesSpare(snapshot, gone, lb.backends, es + more);
    } else {
      StrayDeletesSpare(snapshot, gone + {id}, lb.backends, es + more);
    }
  }

  /** A control-plane backend stays as it is but for the machines' edits to its pool. */
  ghost predicate PoolsSurvive(a: Backends, b: Backends, edits: seq<Edit>) {
    forall id | IsBackend(a, id) :: id in b && b[id] == a[id].(pool := Played(a[id].pool, edits))
  }

  lemma SameKeys(a: Backends, b: Backends, edits: seq<Edit>)
    requires EditedOnly(a, b, edits)
    ensures b.Keys == a.Keys && (a == map[] ==> b == map[]) && forall id | id in a :: b[id].port == a[id].port
    ensures forall id :: IsBackend(b, id) <==> IsBackend(a, id)
  {
  }

  lemma SameName(snapshot: Backends, gone: set<nat>, now: Backends, edits: seq<Edit>, id: nat)
    requires EditedOnly(snapshot - gone, now, edits) && id in snapshot && id !in gone
    ensures id in now && (IsBackend(now, id) <==> IsBackend(snapshot, id))
  {
  }

  lemma StrayDeletesSpare(snapshot: Backends, gone: set<nat>, now: Backends, edits: seq<Edit>)
    requires EditedOnly(snapshot - gone, now, edits) && forall id | id in gone :: !IsBackend(snapshot, id)
    ensures PoolsSurvive(snapshot, now, edits)
  {
  }

  lemma DeletedOrNot(snapshot: Backends, gone: set<nat>, before: Backends, after: Backends, es: seq<Edit>,
      more: seq<Edit>, id: nat)
    requires EditedOnly(snapshot - gone, before, es)
    ensures EditedOnly(before, after, more) ==> EditedOnly(snapshot - gone, after, es + more)
    ensures EditedOnly(before - {id}, after, more) ==> EditedOnly(snapshot - (gone + {id}), after, es + more)
  {
    hide EditedOnly;
    if EditedOnly(before, after, more) {
      EditedInTurn(snapshot - gone, before, after, es, more);
    }
    if EditedOnly(before - {id}, after, more) {
      EditedThenDropped(snapshot - gone, before, {id}, es);
      assert snapshot - gone - {id} == snapshot - (gone + {id});
      EditedInTurn(snapshot - (gone + {id}), before - {id}, after, es, more);
    }
  }

  lemma NothingEdited(backends: Backends)
    ensures PoolsSurvive(backends, backends, [])
  {
  }

  lemma EditedThenSurvives(a: Backends, b: Backends, c: Backends, one: seq<Edit>, other: seq<Edit>)
    requires EditedOnly(a, b, one) && PoolsSurvive(b, c, other)
    ensures PoolsSurvive(a, c, one + other)
  {
    forall id | IsBackend(a, id) ensures id in c && c[id] == a[id].(pool := Played(a[id].pool, one + other)) {
      assert IsBackend(b, id);
      PlayedInTurn(a[id].pool, one, other);
    }
  }

  lemma SurvivesThenEdited(a: Backends, b: Backends, c: Backends, one: seq<Edit>, other: seq<Edit>)
    requires PoolsSurvive(a, b, one) && EditedOnly(b, c, other)
    ensures PoolsSurvive(a, c, one + other)
  {
    forall id | IsBackend(a, id) ensures id in c && c[id] == a[id].(pool := Played(a[id].pool, one + other)) {
      PlayedInTurn(a[id].pool, one, other);
    }
  }

  lemma NothingToSpare(a: Backends, b: Backends, edits: seq<Edit>)
    requires forall id :: !IsBackend(a, id)
    ensures PoolsSurvive(a, b, edits)
  {
  }

  /** ensureBackend, with machines editing the pool all the while. An existing
      control-plane backend survives every outcome, and its pool changes by the
      machines' edits alone; on success it is the only backend left. */
  method EnsureBackend(lb: LoadBalancer) returns (r: Result<nat, RequestFailure>, ghost es: seq<Edit>)
    requires lb.Valid()
    modifies lb`backends, lb`nextId, lb`edits, lb`failures
    ensures lb.Valid() && lb.edits == old(lb.edits) + es
    ensures PoolsSurvive(old(lb.backends), lb.backends, es)
    ensures r.Ok? ==>
              IsBackend(lb.backends, r.value) && lb.backends.Keys == {r.value}
              && lb.backends[r.value].name == "control-plane" && lb.backends[r.value].port == 6443
    ensures r.Ok? && (forall id :: !IsBackend(old(lb.backends), id)) ==> lb.backends[r.value].pool == {}
    ensures lb.failures >= old(lb.failures) + (if r.Ok? then 0 else 1)
  {
    hide LastNamed, EditedOnly, PoolsSurvive;
    ghost var before, frontends := lb.backends, lb.frontends;
    var listing;
    listing, es := lb.ListBackends();
    ghost var listed := lb.backends;
    EditedStaysWired(before, listed, frontends, es);
    NothingEdited(listed);
    EditedThenSurvives(before, listed, listed, es, []);
    assert es + [] == es;
    if listing.Err? {
      return Err(listing.error), es;
    }
    var backend;
    ghost var more;
    backend, more := DeleteStrayBackends(lb, listing.value);
    EditedThenSurvives(before, listed, lb.backends, es, more);
    es := es + more;
    if backend.Err? {
      return Err(backend.error), es;
    }
    if backend.value.None? {
      r := lb.CreateBackend(CONTROL_PLANE, CONTROL_PLANE_PORT);
      NothingToSpare(before, lb.backends, es);
      return;
    }
    r := Ok(backend.value.value);
  }

  /** The loop of ensureFrontend: deletes what has another name, remembers the last of the name. */
  method DeleteStrayFrontends(lb: LoadBalancer, ids: seq<nat>)
      returns (r: Result<Option<nat>, RequestFailure>, ghost es: seq<Edit>)
    requires lb.Valid() && Lists(ids, lb.frontends)
    modifies lb`frontends, lb`backends, lb`edits, lb`failures
    ensures lb.Valid() && lb.edits == old(lb.edits) + es && EditedOnly(old(lb.backends), lb.backends, es)
    ensures NamedStay(old(lb.frontends), lb.frontends)
    ensures r.Ok? && r.value.Some? ==>
              IsFrontend(old(lb.frontends), r.value.value) && lb.frontends.Keys == {r.value.value}
    ensures r.Ok? && r.value.None? ==> lb.frontends == map[] && forall id :: !IsFrontend(old(lb.frontends), id)
    ensures lb.failures >= old(lb.failures) + (if r.Ok? then 0 else 1)
  {
    ghost var snapshot, before := lb.frontends, lb.backends;
    ghost var gone: set<nat> := {};
    var frontend: Option<nat> := None;
    es := [];
    NoEdits(lb.backends);
    assert snapshot - gone == snapshot;
    hide Wired, EditedOnly, Lists, SweptFrontends, NamedStay, IsBackend, LoadBalancer.Valid;
    NoFrontendSwept(ids, snapshot);
    for i := 0 to |ids|
      invariant lb.Valid() && lb.frontends == snapshot - gone && lb.failures >= old(lb.failures)
      invariant lb.edits == old(lb.edits) + es && EditedOnly(before, lb.backends, es)
      invariant SweptFrontends(ids, snapshot, i, gone, frontend)
    {
      SweptFrontendsNext(ids, snapshot, i, gone, frontend);
      if lb.frontends[ids[i]].name == CONTROL_PLANE {
        frontend := Some(ids[i]);
        continue;
      }
      var deleted, more := DeleteStrayFrontend(lb, ids[i], snapshot, gone, before, es);
      es := es + more;
      if deleted.Err? {
        return Err(deleted.error), es;
      }
      gone := gone + {ids[i]};
    }
    WiredAtAnyTime(lb);
    AllFrontendsSwept(lb.backends, ids, snapshot, gone, frontend);
    r := Ok(frontend);
  }

  /** One delete of the loop. */
  method DeleteStrayFrontend(lb: LoadBalancer, id: nat, ghost snapshot: Frontends, ghost gone: set<nat>,
      ghost before: Backends, ghost es: seq<Edit>)
    returns (r: Result<(), RequestFailure>, ghost more: seq<Edit>)
    requires lb.Valid() && EditedOnly(before, lb.backends, es) && id in lb.frontends
              && lb.frontends[id].name != CONTROL_PLANE
    requires lb.frontends == snapshot - gone && NamedStay(snapshot, snapshot - gone)
    modifies lb`frontends, lb`backends, lb`edits, lb`failures
    ensures lb.Valid() && lb.edits == old(lb.edits) + more && EditedOnly(before, lb.backends, es + more)
    ensures r.Ok? ==> lb.frontends == snapshot - (gone + {id})
    ensures r.Err? ==> NamedStay(snapshot, lb.frontends)
    ensures lb.failures >= old(lb.failures) + (if r.Ok? then 0 else 1)
  {
    ghost var turn := lb.backends;
    hide Wired, EditedOnly;
    r, more := lb.DeleteFrontend(id);
    EditedInTurn(before, turn, lb.backends, es, more);
    assert lb.frontends == snapshot - gone || lb.frontends == snapshot - (gone + {id});
  }

  /** The control-plane frontend stays as it is. */
  ghost predicate NamedStay(a: Frontends, b: Frontends) {
    forall id | IsFrontend(a, id) :: id in b && b[id] == a[id]
  }

  lemma WiredAtAnyTime(lb: LoadBalancer)
    requires lb.Valid()
    ensures Wired(lb.backends, lb.frontends)
  {
    hide Wired;
  }

  /** The loop has dealt with the first n of the listing. */
  ghost predicate SweptFrontends(ids: seq<nat>, snapshot: Frontends, n: nat, gone: set<nat>, kept: Option<nat>) {
    && n <= |ids|
    && (if kept.Some? then IsFrontend(snapshot, kept.value) else forall j | 0 <= j < n :: !IsFrontend(snapshot, ids[j]))
    && (forall j | 0 <= j < n :: IsFrontend(snapshot, ids[j]) || ids[j] in gone)
    && (forall id | id in gone :: !IsFrontend(snapshot, id))
    && (forall j | n <= j < |ids| :: ids[j] !in gone)
  }

  lemma NoFrontendSwept(ids: seq<nat>, snapshot: Frontends)
    ensures SweptFrontends(ids, snapshot, 0, {}, None)
  {
  }

  lemma SweptFrontendsNext(ids: seq<nat>, snapshot: Frontends, n: nat, gone: set<nat>, kept: Option<nat>)
    requires Lists(ids, snapshot) && n < |ids| && SweptFrontends(ids, snapshot, n, gone, kept)
    ensures ids[n] in snapshot && ids[n] !in gone
    ensures NamedStay(snapshot, snapshot - gone)
    ensures if IsFrontend(snapshot, ids[n]) then SweptFrontends(ids, snapshot, n + 1, gone, Some(ids[n]))
            else SweptFrontends(ids, snapshot, n + 1, gone + {ids[n]}, kept)
  {
    assert ids[n] in ids;
  }

  lemma AllFrontendsSwept(backends: Backends, ids: seq<nat>, snapshot: Frontends, gone: set<nat>, kept: Option<nat>)
    requires Wired(backends, snapshot - gone) && Lists(ids, snapshot)
              && SweptFrontends(ids, snapshot, |ids|, gone, kept)
    ensures (snapshot - gone).Keys == if kept.Some? then {kept.value} else {}
    ensures NamedStay(snapshot, snapshot - gone) && (kept.Some? ==> IsFrontend(snapshot, kept.value))
    ensures kept.None? ==> snapshot - gone == map[] && forall id :: !IsFrontend(snapshot, id)
  {
    assert forall id | IsFrontend(snapshot, id) :: IsFrontend(snapshot - gone, id);
    forall id | id in snapshot && id !in gone ensures kept == Some(id) {
      assert id in ids;
    }
    forall id | IsFrontend(snapshot, id) ensures kept.Some? {
      assert id in ids;
    }
    assert kept.None? ==> forall id :: id !in (snapshot - gone).Keys;
  }

  /** ensureFrontend, with machines editing the pool of the backend meanwhile. An
      existing control-plane frontend is kept as it is; on success it is the only
      one left, and it targets the given backend. */
  method EnsureFrontend(lb: LoadBalancer, backend: nat) returns (r: Result<nat, RequestFailure>, ghost es: seq<Edit>)
    requires lb.Valid() && IsBackend(lb.backends, backend)
    modifies lb`frontends, lb`nextId, lb`backends, lb`edits, lb`failures
    ensures lb.Valid() && lb.edits == old(lb.edits) + es && EditedOnly(old(lb.backends), lb.backends, es)
    ensures NamedStay(old(lb.frontends), lb.frontends)
    ensures r.Ok? ==> IsFrontend(lb.frontends, r.value) && lb.frontends.Keys == {r.value}
    ensures r.Ok? ==> lb.frontends[r.value] == Frontend("control-plane", 6443, backend)
    ensures lb.failures >= old(lb.failures) + (if r.Ok? then 0 else 1)
  {
    hide EditedOnly;
    ghost var before := lb.backends;
    var listing;
    listing, es := lb.ListFrontends();
    if listing.Err? {
      return Err(listing.error), es;
    }
    ghost var more, turn := [], lb.backends;
    var frontend;
    frontend, more := DeleteStrayFrontends(lb, listing.value);
    EditedInTurn(before, turn, lb.backends, es, more);
    es := es + more;
    if frontend.Err? {
      return Err(frontend.error), es;
    }
    if frontend.value.None? {
      turn := lb.backends;
      EditedStaysWired(before, turn, lb.frontends, es);
      r, more := lb.CreateFrontend(CONTROL_PLANE, CONTROL_PLANE_PORT, backend);
      EditedInTurn(before, turn, lb.backends, es, more);
      es := es + more;
      return;
    }
    r := Ok(frontend.value.value);
  }
}
