/** The engine that drives the load balancer: batches of calls, retried until they succeed or time runs out. */
module Reconciler {
  import opened Store
  import opened Vulcand

  /** What a Kubernetes object asks for; building its backend, servers or frontend may fail. */
  datatype Resource = Resource(id: Id, settings: string, servers: seq<Server>, rule: string,
                               backendOk: bool, serversOk: bool, frontendOk: bool)

  function BackendsOf(rs: seq<Resource>): seq<BackendSpec> {
    if rs == [] then []
    else
      var r := rs[|rs| - 1];
      BackendsOf(rs[..|rs| - 1]) + [BackendSpec(r.id, r.settings, r.servers)]
  }

  function FrontendsOf(rs: seq<Resource>): seq<FrontendSpec> {
    if rs == [] then []
    else
      var r := rs[|rs| - 1];
      FrontendsOf(rs[..|rs| - 1]) + [FrontendSpec(r.id, r.rule)]
  }

  function IdsOf(rs: seq<Resource>): seq<Id> {
    if rs == [] then [] else IdsOf(rs[..|rs| - 1]) + [rs[|rs| - 1].id]
  }

  function IdSet(rs: seq<Resource>): set<Id> { set r | r in rs :: r.id }

  lemma {:induction false} IdsAgree(rs: seq<Resource>)
    ensures BackendIds(BackendsOf(rs)) == IdSet(rs) && FrontendIds(FrontendsOf(rs)) == IdSet(rs)
    ensures (set i | i in IdsOf(rs)) == IdSet(rs)
    decreases |rs|
  {
    if rs != [] {
      var r := rs[|rs| - 1];
      var init := rs[..|rs| - 1];
      IdsAgree(init);
      assert rs == init + [r];
      assert IdSet(rs) == IdSet(init) + {r.id};
      assert BackendIds(BackendsOf(rs)) == BackendIds(BackendsOf(init)) + {r.id};
      assert FrontendIds(FrontendsOf(rs)) == FrontendIds(FrontendsOf(init)) + {r.id};
    }
  }

  /** The previous resources whose ids are not among the new ones. */
  function Removals(rs: seq<Resource>, previous: seq<Resource>): seq<Resource> {
    if previous == [] then []
    else
      var p := previous[|previous| - 1];
      Removals(rs, previous[..|previous| - 1]) + (if p.id !in IdSet(rs) then [p] else [])
  }

  lemma {:induction false} RemovalIds(rs: seq<Resource>, previous: seq<Resource>)
    ensures IdSet(Removals(rs, previous)) == IdSet(previous) - IdSet(rs)
    decreases |previous|
  {
    if previous != [] {
      var init := previous[..|previous| - 1];
      var p := previous[|previous| - 1];
      RemovalIds(rs, init);
      assert previous == init + [p];
      assert IdSet(previous) == IdSet(init) + {p.id};
      assert Removals(rs, previous) == Removals(rs, init) + (if p.id !in IdSet(rs) then [p] else []);
      assert IdSet(Removals(rs, previous)) == IdSet(Removals(rs, init)) + (if p.id !in IdSet(rs) then {p.id} else {});
    }
  }

  lemma {:induction false} RemovedOnly(rs: seq<Resource>, previous: seq<Resource>)
    ensures forall r :: r in Removals(rs, previous) <==> r in previous && r.id !in IdSet(rs)
    decreases |previous|
  {
    if previous != [] {
      var init := previous[..|previous| - 1];
      RemovedOnly(rs, init);
      assert previous == init + [previous[|previous| - 1]];
    }
  }

  lemma {:induction false} NextIds(rs: seq<Resource>, i: nat)
    requires i < |rs|
    ensures IdSet(rs[..i + 1]) == IdSet(rs[..i]) + {rs[i].id} && IdsOf(rs[..i + 1]) == IdsOf(rs[..i]) + [rs[i].id]
    ensures AllNamed(rs[..i]) && Names(rs[i]) ==> AllNamed(rs[..i + 1])
  {
    assert rs[..i + 1] == rs[..i] + [rs[i]];
    assert rs[..i + 1][..i] == rs[..i];
  }

  lemma {:induction false} RemovedNext(s: Store, ids: seq<Id>, id: Id)
    ensures RemovedAll(s, ids + [id]) == Removed(RemovedAll(s, ids), id)
  {
    assert (ids + [id])[..|ids|] == ids;
  }

  // ---------- what a resource asks for ----------

  /** Its backend, its servers and its frontend can be built. */
  predicate Builds(r: Resource) { r.backendOk && r.serversOk && r.frontendOk }

  /** Its backend and its frontend can be built, which is enough to remove it. */
  predicate Names(r: Resource) { r.backendOk && r.frontendOk }

  ghost predicate AllBuild(rs: seq<Resource>) { forall r :: r in rs ==> Builds(r) }

  ghost predicate AllNamed(rs: seq<Resource>) { forall r :: r in rs ==> Names(r) }

  /** No resource after the one at `i` has its id. */
  ghost predicate LastOfId(rs: seq<Resource>, i: nat) {
    i < |rs| && forall j :: i < j < |rs| ==> rs[j].id != rs[i].id
  }

  /** No server after the one at `i` has its id. */
  ghost predicate LastServer(servers: seq<Server>, i: nat) {
    i < |servers| && forall j :: i < j < |servers| ==> servers[j].id != servers[i].id
  }

  /** The store has the resource's settings, every one of its servers at its address, and its frontend. */
  ghost predicate Serves(s: Store, r: Resource) {
    && r.id in s.backends && s.backends[r.id].settings == r.settings
    && (forall i: nat :: LastServer(r.servers, i) ==>
          r.servers[i].id in s.backends[r.id].servers
          && s.backends[r.id].servers[r.servers[i].id] == r.servers[i].url)
    && r.id in s.frontends && s.frontends[r.id] == Frontend(r.id, r.rule)
  }

  /** The resource's backend has no servers but its own. */
  ghost predicate ServesOnly(s: Store, r: Resource) {
    r.id in s.backends
    && forall id :: id in s.backends[r.id].servers ==> exists i :: 0 <= i < |r.servers| && r.servers[i].id == id
  }

  /** What a list of resources asks for, the last of each id, and if `only` nothing else for their backends. */
  ghost predicate Granted(s: Store, rs: seq<Resource>, only: bool) {
    forall i: nat :: LastOfId(rs, i) ==> Serves(s, rs[i]) && (only ==> ServesOnly(s, rs[i]))
  }

  lemma {:induction false} ServerMapIs(servers: seq<Server>, i: nat)
    requires LastServer(servers, i)
    ensures servers[i].id in ServerMap(servers) && ServerMap(servers)[servers[i].id] == servers[i].url
    decreases |servers|
  {
    if i < |servers| - 1 {
      var init := servers[..|servers| - 1];
      assert init[i] == servers[i] && LastServer(init, i);
      ServerMapIs(init, i);
    }
  }

  lemma {:induction false} SpecsOf(rs: seq<Resource>, i: nat)
    requires i < |rs|
    ensures |BackendsOf(rs)| == |rs| && BackendsOf(rs)[i] == BackendSpec(rs[i].id, rs[i].settings, rs[i].servers)
    ensures |FrontendsOf(rs)| == |rs| && FrontendsOf(rs)[i] == FrontendSpec(rs[i].id, rs[i].rule)
    decreases |rs|
  {
    var init := rs[..|rs| - 1];
    if |rs| == 1 {
      assert init == [];
    } else {
      SpecsOf(init, if i < |init| then i else 0);
    }
  }

  lemma {:induction false} LastFrontend(s: Store, fs: seq<FrontendSpec>, i: nat)
    requires i < |fs| && forall j :: i < j < |fs| ==> fs[j].id != fs[i].id
    ensures fs[i].id in PutFrontends(s, fs).frontends
    ensures PutFrontends(s, fs).frontends[fs[i].id] == Frontend(fs[i].id, fs[i].rule)
    decreases |fs|
  {
    if i < |fs| - 1 {
      LastFrontend(s, fs[..|fs| - 1], i);
    }
  }

  /** Upserting the batch of a list of resources grants exactly what the list asks for. */
  lemma {:induction false} UpsertedGrants(s: Store, rs: seq<Resource>)
    ensures Granted(Upserted(s, BackendsOf(rs), FrontendsOf(rs)), rs, true)
  {
    forall i: nat | LastOfId(rs, i)
      ensures var t := Upserted(s, BackendsOf(rs), FrontendsOf(rs)); Serves(t, rs[i]) && ServesOnly(t, rs[i])
    {
      UpsertedServes(s, rs, i);
    }
  }

  lemma {:induction false} UpsertedServes(s: Store, rs: seq<Resource>, i: nat)
    requires LastOfId(rs, i)
    ensures var t := Upserted(s, BackendsOf(rs), FrontendsOf(rs)); Serves(t, rs[i]) && ServesOnly(t, rs[i])
  {
    var bs, fs, r := BackendsOf(rs), FrontendsOf(rs), rs[i];
    SpecsOf(rs, i);
    forall j | i < j < |rs| ensures bs[j].id != bs[i].id && fs[j].id != fs[i].id {
      SpecsOf(rs, j);
    }
    ExactServers(s, bs, i);
    LastFrontend(SetBackends(s, bs), fs, i);
    PutFrontendsKeys(SetBackends(s, bs), fs);
    forall k: nat | LastServer(r.servers, k)
      ensures r.servers[k].id in ServerMap(r.servers) && ServerMap(r.servers)[r.servers[k].id] == r.servers[k].url
    {
      ServerMapIs(r.servers, k);
    }
    ServerMapKeys(r.servers);
    forall id | id in ServerMap(r.servers) ensures exists k :: 0 <= k < |r.servers| && r.servers[k].id == id {
      assert id in ServerIds(r.servers);
      var x :| x in r.servers && x.id == id;
    }
  }

  lemma {:induction false} GrantedCovered(s: Store, t: Store, rs: seq<Resource>)
    requires Granted(s, rs, true) && Covers(s, t)
    ensures Granted(t, rs, false)
  {
    forall i: nat | LastOfId(rs, i) ensures Serves(t, rs[i]) {
      assert Serves(s, rs[i]);
    }
  }

  lemma {:induction false} RemovedAllElsewhere(s: Store, ids: seq<Id>, id: Id)
    requires id !in ids
    ensures id in RemovedAll(s, ids).backends <==> id in s.backends
    ensures id in s.backends ==> RemovedAll(s, ids).backends[id] == s.backends[id]
    ensures id in RemovedAll(s, ids).frontends <==> id in s.frontends
    ensures id in s.frontends ==> RemovedAll(s, ids).frontends[id] == s.frontends[id]
    decreases |ids|
  {
    if ids != [] {
      assert ids[|ids| - 1] in ids;
      RemovedAllElsewhere(s, ids[..|ids| - 1], id);
    }
  }

  /** Removing other ids takes nothing from it. */
  lemma {:induction false} StillGranted(s: Store, rs: seq<Resource>, removals: seq<Resource>)
    requires Granted(s, rs, true) && IdSet(removals) !! IdSet(rs)
    ensures Granted(RemovedAll(s, IdsOf(removals)), rs, true)
  {
    IdsAgree(removals);
    forall i: nat | LastOfId(rs, i)
      ensures var t := RemovedAll(s, IdsOf(removals)); Serves(t, rs[i]) && ServesOnly(t, rs[i])
    {
      assert rs[i].id in IdSet(rs);
      assert rs[i].id !in IdsOf(removals) by {
        assert rs[i].id !in IdSet(removals);
      }
      RemovedAllElsewhere(s, IdsOf(removals), rs[i].id);
    }
  }

  // ---------- jobs ----------

  /** What one commit runs, again and again. */
  datatype Job = Upsert(bs: seq<BackendSpec>, fs: seq<FrontendSpec>) | Remove(id: Id)

  function Changed(j: Job): set<Id> {
    match j
    case Upsert(bs, _) => BackendIds(bs)
    case Remove(id) => {id}
  }

  function Gone(j: Job): set<Id> { if j.Remove? then {j.id} else {} }

  /** One clean run of the job. */
  function After(s: Store, j: Job): Store {
    match j
    case Upsert(bs, fs) => Upserted(s, bs, fs)
    case Remove(id) => Removed(s, id)
  }

  /**
   Nothing dangles, and the job leaves nothing dangling: every backend comes with its own
   frontend, and only its own.
   */
  ghost predicate Ready(s: Store, j: Job) {
    NoDangling(s) && if j.Remove? then Own(s, {j.id}) else BackendIds(j.bs) == FrontendIds(j.fs)
  }

  lemma {:induction false} StillReady(s: Store, t: Store, j: Job)
    requires Ready(s, j) && Moves(s, t, Changed(j), Gone(j))
    ensures Ready(t, j)
  {
    if j.Remove? {
      OwnStays(s, t, {j.id});
    }
  }

  /** Any number of failed attempts, then a clean one: the same store as the clean one alone. */
  lemma {:induction false} Converges(s: Store, t: Store, j: Job)
    requires Ready(s, j) && Moves(s, t, Changed(j), Gone(j))
    ensures After(t, j) == After(s, j)
  {
    match j
    case Upsert(bs, fs) => CleanRunForgets(s, t, bs, fs);
    case Remove(id) => RemovalForgets(s, t, id);
  }

  lemma {:induction false} MovesSame(s: Store, t: Store, u: Store, c: set<Id>, r: set<Id>)
    requires Moves(s, t, c, r) && Moves(t, u, c, r)
    ensures Moves(s, u, c, r)
  {
    MovesTwice(s, t, u, c, r, c, r);
    assert c + c == c && r + r == r;
  }

  /** A frontend whose backend is there may be put. */
  lemma {:induction false} PutFrontendMoves(s: Store, f: FrontendSpec)
    requires NoDangling(s) && f.id in s.backends
    ensures Moves(s, PutFrontend(s, f), {f.id}, {})
  {
    var t := PutFrontend(s, f);
    forall k | k in t.frontends ensures t.frontends[k].backend in t.backends {
      assert k == f.id || (k in s.frontends && t.frontends[k] == s.frontends[k]);
    }
  }

  lemma {:induction false} DropFrontendMoves(s: Store, id: Id)
    requires NoDangling(s)
    ensures Moves(s, DropFrontend(s, id), {id}, {id})
  {
  }

  lemma {:induction false} DropBackendMoves(s: Store, id: Id)
    requires NoDangling(s) && Own(s, {id}) && id !in s.frontends
    ensures Moves(s, DropBackend(s, id), {id}, {id})
  {
    var t := DropBackend(s, id);
    forall k | k in t.frontends ensures t.frontends[k].backend in t.backends {
      assert s.frontends[k].backend in s.backends && s.frontends[k].backend != id;
    }
  }

  lemma {:induction false} StaysPut(s: Store)
    requires NoDangling(s)
    ensures Moves(s, s, {}, {})
  {
  }

  lemma {:induction false} AfterCovers(s: Store, t: Store, fs: seq<FrontendSpec>, bs: seq<BackendSpec>)
    requires Covers(SetBackends(s, bs), t)
    ensures Covers(Upserted(s, bs, fs), PutFrontends(t, fs))
  {
    PutFrontendsCover(SetBackends(s, bs), t, fs);
  }

  lemma {:induction false} CoversItself(s: Store)
    ensures Covers(s, s)
  {
  }

  /** No two backends of the batch have the same id. */
  ghost predicate DistinctIds(bs: seq<BackendSpec>) { forall i, j :: 0 <= i < j < |bs| ==> bs[i].id != bs[j].id }

  /** Some backend of the batch has a server it should not have. */
  ghost predicate SomeStale(t: Store, bs: seq<BackendSpec>) {
    exists i :: 0 <= i < |bs| && bs[i].id in t.backends && t.backends[bs[i].id].servers != ServerMap(bs[i].servers)
  }

  lemma {:induction false} StaleIsNotSet(s: Store, t: Store, bs: seq<BackendSpec>)
    requires DistinctIds(bs) && SomeStale(t, bs)
    ensures t.backends != SetBackends(s, bs).backends
  {
    var i :| 0 <= i < |bs| && bs[i].id in t.backends && t.backends[bs[i].id].servers != ServerMap(bs[i].servers);
    ExactServers(s, bs, i);
  }

  /** Upserting another backend, or leaving a stale server in this one, leaves a stale server in the batch. */
  lemma {:induction false} StaleNext(t: Store, u: Store, bs: seq<BackendSpec>, i: nat)
    requires DistinctIds(bs) && i < |bs| && BackendOnly(t, u, bs[i].id) && bs[i].id in u.backends
    requires SomeStale(t, bs[..i]) || u.backends[bs[i].id].servers != ServerMap(bs[i].servers)
    ensures SomeStale(u, bs[..i + 1])
  {
    var next := bs[..i + 1];
    if u.backends[bs[i].id].servers != ServerMap(bs[i].servers) {
      assert next[i] == bs[i];
    } else {
      var j :| 0 <= j < i && bs[..i][j].id in t.backends
               && t.backends[bs[..i][j].id].servers != ServerMap(bs[..i][j].servers);
      assert next[j] == bs[j] && bs[j].id != bs[i].id;
      assert t.backends[bs[j].id] == (t.backends - {bs[i].id})[bs[j].id];
      assert bs[j].id in u.backends - {bs[i].id} && u.backends[bs[j].id] == (u.backends - {bs[i].id})[bs[j].id];
    }
  }

  // ---------- the engine ----------

  /** How a commit ended; the context being done also counts as success. */
  datatype Outcome = Committed | Cancelled | TimedOut

  class Engine {
    const lb: LoadBalancer
    var cancelled: bool

    constructor (lb: LoadBalancer)
      ensures this.lb == lb
    {
      this.lb := lb;
    }

    /** Every store since length `n` of the trace is one the store may have got to from `s`. */
    ghost predicate Since(n: nat, s: Store, changed: set<Id>, removed: set<Id>)
      reads this, lb
    {
      && n <= |lb.trace| && Moves(s, lb.state, changed, removed)
      && forall i :: n <= i < |lb.trace| ==> Moves(s, lb.trace[i], changed, removed)
    }

    /** Upsert one backend of a batch. */
    method UpsertBackend(b: BackendSpec, ghost n: nat, ghost s: Store, ghost c: set<Id>) returns (ok: bool)
      requires Since(n, s, c, {}) && b.id in c
      modifies lb
      ensures old(lb.trace) <= lb.trace && Since(n, s, c, {})
      ensures ok ==> b.id in lb.state.backends && BackendOnly(old(lb.state), lb.state, b.id)
      ensures ok ==> Covers(SetBackend(old(lb.state), b), lb.state)
      ensures ok ==> lb.exact == (old(lb.exact) && lb.state == SetBackend(old(lb.state), b))
      ensures ok ==> (lb.state == SetBackend(old(lb.state), b)
                      <==> lb.state.backends[b.id].servers == ServerMap(b.servers))
      ensures old(lb.state).backends.Keys <= lb.state.backends.Keys
      ensures old(lb.faults) <= lb.faults
      ensures lb.faults == old(lb.faults) ==> ok && lb.state == SetBackend(old(lb.state), b)
    {
      ghost var t, m := lb.state, |lb.trace|;
      ghost var listed, lost;
      ok, listed, lost := lb.UpsertBackend(b);
      forall u | BackendOnly(t, u, b.id) ensures Moves(s, u, c, {}) {
        BackendOnlyMoves(t, u, b.id);
        MovesMore(t, u, {b.id}, {}, c, {});
        MovesSame(s, t, u, c, {});
      }
      assert forall i :: n <= i < m ==> lb.trace[i] == old(lb.trace)[i];
      BackendOnlyMoves(t, lb.state, b.id);
      if ok {
        KeepingIff(t, b, if listed then lost else Stale(t, b));
      }
    }

    method UpsertBackends(bs: seq<BackendSpec>, ghost n: nat, ghost s: Store, ghost c: set<Id>) returns (ok: bool)
      requires Since(n, s, c, {}) && BackendIds(bs) <= c && lb.exact
      modifies lb
      ensures old(lb.trace) <= lb.trace && Since(n, s, c, {})
      ensures ok ==> BackendIds(bs) <= lb.state.backends.Keys && Covers(SetBackends(old(lb.state), bs), lb.state)
      ensures ok && lb.exact ==> lb.state == SetBackends(old(lb.state), bs)
      ensures ok && !lb.exact && DistinctIds(bs) ==> SomeStale(lb.state, bs)
      ensures old(lb.faults) <= lb.faults && (lb.faults == old(lb.faults) ==> ok && lb.exact)
    {
      CoversItself(lb.state);
      for i := 0 to |bs|
        invariant old(lb.trace) <= lb.trace && Since(n, s, c, {})
        invariant BackendIds(bs[..i]) <= lb.state.backends.Keys && Covers(SetBackends(old(lb.state), bs[..i]), lb.state)
        invariant lb.exact ==> lb.state == SetBackends(old(lb.state), bs[..i])
        invariant !lb.exact && DistinctIds(bs) ==> SomeStale(lb.state, bs[..i])
        invariant old(lb.faults) <= lb.faults && (lb.faults == old(lb.faults) ==> lb.exact)
      {
        assert bs[..i + 1] == bs[..i] + [bs[i]];
        assert bs[..i + 1][..i] == bs[..i];
        assert bs[i].id in BackendIds(bs);
        ghost var t := lb.state;
        ok := UpsertBackend(bs[i], n, s, c);
        if !ok { return; }
        SetBackendCovers(SetBackends(old(lb.state), bs[..i]), t, bs[i]);
        CoversTwice(SetBackends(old(lb.state), bs[..i + 1]), SetBackend(t, bs[i]), lb.state);
        if !lb.exact && DistinctIds(bs) {
          StaleNext(t, lb.state, bs, i);
        }
      }
      assert bs[..|bs|] == bs;
      ok := true;
    }

    method UpsertFrontends(fs: seq<FrontendSpec>, ghost n: nat, ghost s: Store, ghost c: set<Id>) returns (ok: bool)
      requires Since(n, s, c, {}) && FrontendIds(fs) <= c && FrontendIds(fs) <= lb.state.backends.Keys
      modifies lb`state, lb`trace, lb`faults
      ensures old(lb.trace) <= lb.trace && Since(n, s, c, {})
      ensures ok ==> lb.state == PutFrontends(old(lb.state), fs)
      ensures old(lb.faults) <= lb.faults && (lb.faults == old(lb.faults) ==> ok)
    {
      for i := 0 to |fs|
        invariant old(lb.trace) <= lb.trace && Since(n, s, c, {})
        invariant FrontendIds(fs) <= lb.state.backends.Keys
        invariant lb.state == PutFrontends(old(lb.state), fs[..i]) && old(lb.faults) <= lb.faults
      {
        assert fs[..i + 1][..i] == fs[..i];
        var f := fs[i];
        assert f.id in FrontendIds(fs);
        ghost var t := lb.state;
        PutFrontendMoves(t, f);
        MovesMore(t, PutFrontend(t, f), {f.id}, {}, c, {});
        MovesSame(s, t, PutFrontend(t, f), c, {});
        ok := lb.UpsertFrontend(f);
        if !ok { return; }
      }
      assert fs[..|fs|] == fs;
      ok := true;
    }

    /** Remove the frontend, then the backend. */
    method RemoveBoth(id: Id, ghost n: nat, ghost s: Store) returns (ok: bool)
      requires Since(n, s, {id}, {id}) && Ready(lb.state, Remove(id))
      modifies lb`state, lb`trace, lb`faults
      ensures old(lb.trace) <= lb.trace && Since(n, s, {id}, {id})
      ensures ok ==> lb.state == Removed(old(lb.state), id)
      ensures old(lb.faults) <= lb.faults && (lb.faults == old(lb.faults) ==> ok)
    {
      ghost var t := lb.state;
      var t1 := DropFrontend(t, id);
      DropFrontendMoves(t, id);
      MovesSame(s, t, t1, {id}, {id});
      ok := lb.DeleteFrontend(id);
      if !ok { return; }
      OwnStays(t, t1, {id});
      DropBackendMoves(t1, id);
      MovesSame(s, t1, DropBackend(t1, id), {id}, {id});
      ok := lb.DeleteBackend(id);
    }

    /**
     One attempt at the job.  A success gives everything the job asks for, and stale servers of
     its backends at most; and none if and only if every upsert of a backend was exact.
     */
    method Attempt(j: Job, ghost n: nat, ghost s: Store) returns (ok: bool)
      requires Since(n, s, Changed(j), Gone(j)) && Ready(lb.state, j) && lb.exact
      modifies lb
      ensures old(lb.trace) <= lb.trace && Since(n, s, Changed(j), Gone(j))
      ensures ok ==> Covers(After(old(lb.state), j), lb.state)
      ensures ok && lb.exact ==> lb.state == After(old(lb.state), j)
      ensures ok && (j.Upsert? ==> DistinctIds(j.bs)) ==> (lb.exact <==> lb.state == After(old(lb.state), j))
      ensures old(lb.faults) <= lb.faults && (lb.faults == old(lb.faults) ==> ok && lb.exact)
    {
      match j
      case Upsert(bs, fs) =>
        ghost var t := lb.state;
        ok := UpsertBackends(bs, n, s, BackendIds(bs));
        if !ok { return; }
        ghost var u := lb.state;
        ok := UpsertFrontends(fs, n, s, BackendIds(bs));
        AfterCovers(t, u, fs, bs);
        PutFrontendsKeys(u, fs);
        PutFrontendsKeys(SetBackends(t, bs), fs);
        if ok && !lb.exact && DistinctIds(bs) {
          StaleIsNotSet(t, u, bs);
        }
      case Remove(id) =>
        CoversItself(Removed(lb.state, id));
        ok := RemoveBoth(id, n, s);
    }

    /**
     Run the job until it succeeds, the context is done, or the back-off (here: some finite
     number of attempts) is used up.  At every call in between, nothing dangles and only the
     job's ids are touched.  Once committed, the store has everything one clean run would have
     given it, whatever the failed attempts had left behind, and stale servers of the job's
     backends at most; it is that store if and only if the last attempt was exact.
     */
    method Commit(j: Job) returns (outcome: Outcome)
      requires Ready(lb.state, j)
      modifies this`cancelled, lb
      ensures old(lb.trace) <= lb.trace && Since(|old(lb.trace)|, old(lb.state), Changed(j), Gone(j))
      ensures outcome.Committed? ==> Covers(After(old(lb.state), j), lb.state)
      ensures outcome.Committed? && lb.exact ==> lb.state == After(old(lb.state), j)
      ensures outcome.Committed? && (j.Upsert? ==> DistinctIds(j.bs))
              ==> (lb.exact <==> lb.state == After(old(lb.state), j))
      ensures old(cancelled) ==> outcome.Cancelled? && lb.state == old(lb.state) && lb.trace == old(lb.trace)
      ensures (outcome.Cancelled? ==> cancelled) && (old(cancelled) ==> cancelled)
      ensures old(lb.faults) <= lb.faults && (outcome.TimedOut? ==> old(lb.faults) < lb.faults)
      ensures outcome.Committed? && lb.faults == old(lb.faults) ==> lb.exact
    {
      ghost var n, s := |lb.trace|, lb.state;
      StaysPut(s);
      MovesMore(s, s, {}, {}, Changed(j), Gone(j));
      var budget: nat := *;
      while true
        invariant old(lb.trace) <= lb.trace && Since(n, s, Changed(j), Gone(j)) && (old(cancelled) ==> cancelled)
        invariant old(cancelled) ==> lb.state == old(lb.state) && lb.trace == old(lb.trace)
        invariant old(lb.faults) <= lb.faults
        decreases budget
      {
        if * { cancelled := true; }
        if cancelled { return Cancelled; }
        if budget == 0 {
          lb.faults := lb.faults + 1;
          return TimedOut;
        }
        budget := budget - 1;
        StillReady(s, lb.state, j);
        Converges(s, lb.state, j);
        lb.Begin();
        var ok := Attempt(j, n, s);
        if ok { return Committed; }
      }
    }

    /** Later steps starting where earlier ones ended. */
    lemma {:induction false} SinceTwice(n: nat, m: nat, s: Store, t: Store, c: set<Id>, r: set<Id>, c': set<Id>,
                                        r': set<Id>)
      requires n <= m <= |lb.trace| && Moves(s, t, c, r) && Since(m, t, c', r')
      requires forall i :: n <= i < m ==> Moves(s, lb.trace[i], c, r)
      ensures Since(n, s, c + c', r + r')
    {
      MovesTwice(s, t, lb.state, c, r, c', r');
      forall i | n <= i < |lb.trace| ensures Moves(s, lb.trace[i], c + c', r + r') {
        if i < m {
          MovesMore(s, lb.trace[i], c, r, c + c', r + r');
        } else {
          MovesTwice(s, t, lb.trace[i], c, r, c', r');
        }
      }
    }

    lemma {:induction false} SinceMore(n: nat, s: Store, c: set<Id>, r: set<Id>, c': set<Id>, r': set<Id>)
      requires Since(n, s, c, r) && c <= c' && r <= r'
      ensures Since(n, s, c', r')
    {
      MovesMore(s, lb.state, c, r, c', r');
      forall i | n <= i < |lb.trace| ensures Moves(s, lb.trace[i], c', r') {
        MovesMore(s, lb.trace[i], c, r, c', r');
      }
    }

    /**
     Build every backend and frontend, then upsert them all in one commit; a build error touches
     nothing.  Once done, the store grants what the resources ask for, whatever was there before.
     */
    method AddResources(rs: seq<Resource>) returns (failed: bool, ghost done: bool, ghost exact: bool)
      requires NoDangling(lb.state)
      modifies this`cancelled, lb
      ensures old(lb.trace) <= lb.trace && Since(|old(lb.trace)|, old(lb.state), IdSet(rs), {})
      ensures !AllBuild(rs) ==> failed && lb.state == old(lb.state) && lb.trace == old(lb.trace)
      ensures done ==> !failed && Covers(Upserted(old(lb.state), BackendsOf(rs), FrontendsOf(rs)), lb.state)
      ensures done && exact ==> lb.state == Upserted(old(lb.state), BackendsOf(rs), FrontendsOf(rs))
      ensures done ==> Granted(lb.state, rs, exact)
      ensures old(cancelled) ==> cancelled && lb.state == old(lb.state)
      ensures !failed && !cancelled ==> done
      ensures old(lb.faults) <= lb.faults
      ensures lb.faults == old(lb.faults) ==> (failed <==> !AllBuild(rs)) && (done ==> exact)
    {
      StaysPut(lb.state);
      MovesMore(lb.state, lb.state, {}, {}, IdSet(rs), {});
      var backends: seq<BackendSpec>, frontends: seq<FrontendSpec> := [], [];
      for i := 0 to |rs|
        invariant backends == BackendsOf(rs[..i]) && frontends == FrontendsOf(rs[..i])
        invariant forall j :: 0 <= j < i ==> Builds(rs[j])
      {
        var r := rs[i];
        if !r.backendOk || !r.serversOk || !r.frontendOk {
          assert r in rs && !Builds(r);
          return true, false, false;
        }
        assert rs[..i + 1][..i] == rs[..i];
        backends := backends + [BackendSpec(r.id, r.settings, r.servers)];
        frontends := frontends + [FrontendSpec(r.id, r.rule)];
      }
      assert rs[..|rs|] == rs;
      IdsAgree(rs);
      UpsertedGrants(lb.state, rs);
      var outcome := Commit(Upsert(backends, frontends));
      failed, done, exact := outcome.TimedOut?, outcome.Committed?, lb.exact;
      if done {
        GrantedCovered(Upserted(old(lb.state), backends, frontends), lb.state, rs);
      }
    }

    /** Remove the resources one by one, each in a commit of its own, up to the first that cannot be built. */
    method DeleteResources(rs: seq<Resource>) returns (failed: bool, ghost done: bool)
      requires NoDangling(lb.state) && Own(lb.state, IdSet(rs))
      modifies this`cancelled, lb
      ensures old(lb.trace) <= lb.trace && Since(|old(lb.trace)|, old(lb.state), IdSet(rs), IdSet(rs))
      ensures !AllNamed(rs) ==> failed
      ensures UpToUnnamed(rs, |old(lb.trace)|, old(lb.state))
      ensures done ==> !failed && lb.state == RemovedAll(old(lb.state), IdsOf(rs))
      ensures old(cancelled) ==> cancelled && lb.state == old(lb.state)
      ensures !failed && !cancelled ==> done
      ensures old(cancelled) ==> cancelled
      ensures old(lb.faults) <= lb.faults
      ensures lb.faults == old(lb.faults) ==> (failed <==> !AllNamed(rs))
    {
      ghost var n, s := |lb.trace|, lb.state;
      StaysPut(s);
      done := true;
      assert rs[..0] == [] && IdSet([]) == {};
      for i := 0 to |rs|
        invariant old(lb.trace) <= lb.trace && Since(n, s, IdSet(rs[..i]), IdSet(rs[..i]))
        invariant done ==> lb.state == RemovedAll(s, IdsOf(rs[..i]))
        invariant old(cancelled) ==> cancelled && lb.state == old(lb.state)
        invariant !cancelled ==> done
        invariant old(lb.faults) <= lb.faults
        invariant AllNamed(rs[..i])
      {
        var r := rs[i];
        if !r.backendOk || !r.frontendOk {
          StopsAt(rs, i, n, s);
          assert r in rs && !Names(r);
          return true, false;
        }
        var outcome := DeleteResource(rs, i, n, s);
        NextIds(rs, i);
        RemovedNext(s, IdsOf(rs[..i]), r.id);
        done := done && outcome.Committed?;
        if outcome.TimedOut? {
          StopsAt(rs, i + 1, n, s);
          return true, false;
        }
      }
      assert rs[..|rs|] == rs;
      StopsAt(rs, |rs|, n, s);
      failed := false;
    }

    /** Remove resource `i`, the ones before it having been removed. */
    method DeleteResource(rs: seq<Resource>, i: nat, ghost n: nat, ghost s: Store) returns (outcome: Outcome)
      requires i < |rs| && Since(n, s, IdSet(rs[..i]), IdSet(rs[..i])) && Own(s, IdSet(rs))
      modifies this`cancelled, lb
      ensures old(lb.trace) <= lb.trace && Since(n, s, IdSet(rs[..i + 1]), IdSet(rs[..i + 1]))
      ensures outcome.Committed? ==> lb.state == Removed(old(lb.state), rs[i].id)
      ensures (outcome.Cancelled? ==> cancelled) && (old(cancelled) ==> cancelled && lb.state == old(lb.state))
      ensures old(lb.faults) <= lb.faults && (outcome.TimedOut? ==> old(lb.faults) < lb.faults)
    {
      ghost var t, m, ids := lb.state, |lb.trace|, IdSet(rs[..i]);
      var r := rs[i];
      OwnStays(s, t, IdSet(rs));
      assert r.id in IdSet(rs);
      outcome := Commit(Remove(r.id));
      SinceTwice(n, m, s, t, ids, ids, {r.id}, {r.id});
      NextIds(rs, i);
    }

    /** Nothing from the first resource without a name on has been touched. */
    ghost predicate UpToUnnamed(rs: seq<Resource>, n: nat, s: Store)
      reads this, lb
    {
      forall i :: 0 <= i < |rs| && !Names(rs[i]) ==> Since(n, s, IdSet(rs[..i]), IdSet(rs[..i]))
    }

    /** The ids up to resource `i` are among those of the whole list. */
    lemma {:induction false} StopsAt(rs: seq<Resource>, i: nat, n: nat, s: Store)
      requires i <= |rs| && Since(n, s, IdSet(rs[..i]), IdSet(rs[..i])) && AllNamed(rs[..i])
      ensures Since(n, s, IdSet(rs), IdSet(rs)) && UpToUnnamed(rs, n, s)
    {
      SinceMore(n, s, IdSet(rs[..i]), IdSet(rs[..i]), IdSet(rs), IdSet(rs));
      forall j | 0 <= j < i ensures Names(rs[j]) {
        assert rs[..i][j] in rs[..i];
      }
      forall j | 0 <= j < |rs| && !Names(rs[j]) ensures Since(n, s, IdSet(rs[..j]), IdSet(rs[..j])) {
        assert rs[..j][..i] == rs[..i];
        SinceMore(n, s, IdSet(rs[..i]), IdSet(rs[..i]), IdSet(rs[..j]), IdSet(rs[..j]));
      }
    }

    /** Upsert the new resources, then remove those of the previous list that are not among them. */
    method UpdateResources(rs: seq<Resource>, previous: seq<Resource>)
      returns (failed: bool, ghost done: bool, ghost exact: bool)
      requires NoDangling(lb.state) && Own(lb.state, IdSet(Removals(rs, previous)))
      modifies this`cancelled, lb
      ensures old(lb.trace) <= lb.trace
      ensures var gone := IdSet(Removals(rs, previous)); Since(|old(lb.trace)|, old(lb.state), IdSet(rs) + gone, gone)
      ensures var goal := RemovedAll(Upserted(old(lb.state), BackendsOf(rs), FrontendsOf(rs)),
                                     IdsOf(Removals(rs, previous)));
              (done ==> !failed && Covers(goal, lb.state)) && (done && exact ==> lb.state == goal)
      ensures !AllBuild(rs) ==> failed && lb.state == old(lb.state) && lb.trace == old(lb.trace)
      ensures done ==> Granted(lb.state, rs, exact)
      ensures !failed && !cancelled ==> done
      ensures old(lb.faults) <= lb.faults
      ensures lb.faults == old(lb.faults) ==>
                (failed <==> !AllBuild(rs) || !AllNamed(Removals(rs, previous))) && (done ==> exact)
    {
      var known := set r | r in rs :: r.id;
      var removals: seq<Resource> := [];
      for i := 0 to |previous|
        invariant removals == Removals(rs, previous[..i])
      {
        assert previous[..i + 1][..i] == previous[..i];
        if previous[i].id !in known {
          removals := removals + [previous[i]];
        }
      }
      assert previous[..|previous|] == previous;
      ghost var n, s, gone := |lb.trace|, lb.state, IdSet(removals);
      failed, done, exact := AddResources(rs);
      ghost var t, m := lb.state, |lb.trace|;
      if failed {
        SinceMore(n, s, IdSet(rs), {}, IdSet(rs) + gone, gone);
        return;
      }
      OwnStays(s, t, gone);
      ghost var added := done;
      failed, done := DeleteResources(removals);
      if added && done {
        RemovedAllCover(Upserted(s, BackendsOf(rs), FrontendsOf(rs)), t, IdsOf(removals));
        RemovalIds(rs, previous);
        UpsertedGrants(s, rs);
        StillGranted(Upserted(s, BackendsOf(rs), FrontendsOf(rs)), rs, removals);
        GrantedCovered(RemovedAll(Upserted(s, BackendsOf(rs), FrontendsOf(rs)), IdsOf(removals)), lb.state, rs);
      }
      SinceTwice(n, m, s, t, IdSet(rs), {}, gone, gone);
      assert {} + gone == gone;
      done := done && added;
    }

    /**
     An update: at every call nothing dangles, no id of both lists goes missing, ids of
     neither list are untouched; and once everything is committed, the ids left are those that
     were there or are new, less those only in the previous list, and every new resource has its
     settings, its servers and its frontend; stale servers are left at most, and none if the
     upserts of the backends were exact.  An update in which no call fails is exact.
     */
    method Update(previous: seq<Resource>, next: seq<Resource>) returns (ghost done: bool, ghost exact: bool)
      requires NoDangling(lb.state) && Own(lb.state, IdSet(previous) - IdSet(next))
      modifies this`cancelled, lb
      ensures old(lb.trace) <= lb.trace
      ensures forall i :: |old(lb.trace)| <= i < |lb.trace| ==>
                && NoDangling(lb.trace[i])
                && Keeps(old(lb.state), lb.trace[i], IdSet(previous) - IdSet(next))
                && Elsewhere(old(lb.state), lb.trace[i], IdSet(previous) + IdSet(next))
      ensures done ==> var left := IdSet(previous) - IdSet(next);
                && lb.state.backends.Keys == old(lb.state).backends.Keys + IdSet(next) - left
                && lb.state.frontends.Keys == old(lb.state).frontends.Keys + IdSet(next) - left
      ensures var goal := RemovedAll(Upserted(old(lb.state), BackendsOf(next), FrontendsOf(next)),
                                     IdsOf(Removals(next, previous)));
              (done ==> Covers(goal, lb.state)) && (done && exact ==> lb.state == goal)
      ensures done ==> Granted(lb.state, next, exact)
      ensures !AllBuild(next) ==> lb.state == old(lb.state) && lb.trace == old(lb.trace)
      ensures lb.faults == old(lb.faults) && !cancelled && AllBuild(next) && AllNamed(previous) ==> done && exact
    {
      ghost var n, s := |lb.trace|, lb.state;
      RemovalIds(next, previous);
      var failed;
      failed, done, exact := UpdateResources(next, previous);
      SinceMore(n, s, IdSet(next) + (IdSet(previous) - IdSet(next)), IdSet(previous) - IdSet(next),
                IdSet(previous) + IdSet(next), IdSet(previous) - IdSet(next));
      UpdateIds(s, BackendsOf(next), FrontendsOf(next), IdsOf(Removals(next, previous)));
      IdsAgree(next);
      IdsAgree(Removals(next, previous));
      RemovedOnly(next, previous);
    }
  }
}
