/** The load balancer's store as a value, and what upserting and removing resources makes of it. */
module Store {
  type Id = string

  datatype Server = Server(id: Id, url: string)

  datatype Backend = Backend(settings: string, servers: map<Id, string>)

  datatype Frontend = Frontend(backend: Id, rule: string)

  datatype Store = Store(backends: map<Id, Backend>, frontends: map<Id, Frontend>)

  /** A backend to upsert with its servers, and a frontend to upsert; both carry the id of their resource. */
  datatype BackendSpec = BackendSpec(id: Id, settings: string, servers: seq<Server>)

  datatype FrontendSpec = FrontendSpec(id: Id, rule: string)

  // ---------- single calls ----------

  /** Upserting a backend leaves the servers it has. */
  function PutBackend(s: Store, b: BackendSpec): Store {
    var servers := if b.id in s.backends then s.backends[b.id].servers else map[];
    s.(backends := s.backends[b.id := Backend(b.settings, servers)])
  }

  function PutServer(s: Store, id: Id, server: Server): Store {
    if id in s.backends then
      s.(backends := s.backends[id := s.backends[id].(servers := s.backends[id].servers[server.id := server.url])])
    else s
  }

  function DropServer(s: Store, id: Id, server: Id): Store {
    if id in s.backends then
      s.(backends := s.backends[id := s.backends[id].(servers := s.backends[id].servers - {server})])
    else s
  }

  function PutFrontend(s: Store, f: FrontendSpec): Store {
    s.(frontends := s.frontends[f.id := Frontend(f.id, f.rule)])
  }

  function DropFrontend(s: Store, id: Id): Store { s.(frontends := s.frontends - {id}) }

  function DropBackend(s: Store, id: Id): Store { s.(backends := s.backends - {id}) }

  // ---------- whole batches ----------

  function ServerMap(servers: seq<Server>): map<Id, string> {
    if servers == [] then map[]
    else ServerMap(servers[..|servers| - 1])[servers[|servers| - 1].id := servers[|servers| - 1].url]
  }

  /** The backend, with exactly the servers listed. */
  function SetBackend(s: Store, b: BackendSpec): Store {
    s.(backends := s.backends[b.id := Backend(b.settings, ServerMap(b.servers))])
  }

  function SetBackends(s: Store, bs: seq<BackendSpec>): Store {
    if bs == [] then s else SetBackend(SetBackends(s, bs[..|bs| - 1]), bs[|bs| - 1])
  }

  function PutFrontends(s: Store, fs: seq<FrontendSpec>): Store {
    if fs == [] then s else PutFrontend(PutFrontends(s, fs[..|fs| - 1]), fs[|fs| - 1])
  }

  /** What one clean run of an upsert batch leaves. */
  function Upserted(s: Store, bs: seq<BackendSpec>, fs: seq<FrontendSpec>): Store {
    PutFrontends(SetBackends(s, bs), fs)
  }

  /** What one clean removal leaves. */
  function Removed(s: Store, id: Id): Store { DropBackend(DropFrontend(s, id), id) }

  function RemovedAll(s: Store, ids: seq<Id>): Store {
    if ids == [] then s else Removed(RemovedAll(s, ids[..|ids| - 1]), ids[|ids| - 1])
  }

  function BackendIds(bs: seq<BackendSpec>): set<Id> { set b | b in bs :: b.id }

  function FrontendIds(fs: seq<FrontendSpec>): set<Id> { set f | f in fs :: f.id }

  // ---------- servers too many ----------

  /** `t` is `s`, except that its backends may have more servers. */
  ghost predicate Covers(s: Store, t: Store) {
    && t.frontends == s.frontends && t.backends.Keys == s.backends.Keys
    && forall k :: k in s.backends ==>
         t.backends[k].settings == s.backends[k].settings && Within(s.backends[k].servers, t.backends[k].servers)
  }

  ghost predicate Within(m: map<Id, string>, n: map<Id, string>) { forall k :: k in m ==> k in n && n[k] == m[k] }

  lemma {:induction false} CoversTwice(s: Store, t: Store, u: Store)
    requires Covers(s, t) && Covers(t, u)
    ensures Covers(s, u)
  {
  }

  lemma {:induction false} SetBackendCovers(s: Store, t: Store, b: BackendSpec)
    requires Covers(s, t)
    ensures Covers(SetBackend(s, b), SetBackend(t, b))
  {
  }

  lemma {:induction false} PutFrontendsCover(s: Store, t: Store, fs: seq<FrontendSpec>)
    requires Covers(s, t)
    ensures Covers(PutFrontends(s, fs), PutFrontends(t, fs))
    decreases |fs|
  {
    if fs != [] {
      PutFrontendsCover(s, t, fs[..|fs| - 1]);
    }
  }

  lemma {:induction false} RemovedCovers(s: Store, t: Store, id: Id)
    requires Covers(s, t)
    ensures Covers(Removed(s, id), Removed(t, id))
  {
  }

  lemma {:induction false} RemovedAllCover(s: Store, t: Store, ids: seq<Id>)
    requires Covers(s, t)
    ensures Covers(RemovedAll(s, ids), RemovedAll(t, ids))
    decreases |ids|
  {
    if ids != [] {
      RemovedAllCover(s, t, ids[..|ids| - 1]);
      RemovedCovers(RemovedAll(s, ids[..|ids| - 1]), RemovedAll(t, ids[..|ids| - 1]), ids[|ids| - 1]);
    }
  }

  // ---------- safety ----------

  /** Every frontend's backend exists. */
  ghost predicate NoDangling(s: Store) { forall k :: k in s.frontends ==> s.frontends[k].backend in s.backends }

  /** A frontend that uses one of `ids` is the frontend of that id. */
  ghost predicate Own(s: Store, ids: set<Id>) {
    forall k :: k in s.frontends && s.frontends[k].backend in ids ==> s.frontends[k].backend == k
  }

  /** `t` is `s` but for `ids`. */
  ghost predicate Elsewhere(s: Store, t: Store, ids: set<Id>) {
    && (forall k :: k !in ids ==> (k in t.backends <==> k in s.backends) && (k in t.frontends <==> k in s.frontends))
    && (forall k :: k !in ids && k in s.backends ==> t.backends[k] == s.backends[k])
    && (forall k :: k !in ids && k in s.frontends ==> t.frontends[k] == s.frontends[k])
  }

  /** Every id of `s` is still there, `removed` excepted. */
  ghost predicate Keeps(s: Store, t: Store, removed: set<Id>) {
    s.backends.Keys - removed <= t.backends.Keys && s.frontends.Keys - removed <= t.frontends.Keys
  }

  /** Frontends are as they were, or use the backend of their own id. */
  ghost predicate NewAreOwn(s: Store, t: Store) {
    forall k :: k in t.frontends ==>
      (k in s.frontends && t.frontends[k] == s.frontends[k]) || t.frontends[k].backend == k
  }

  /**
   From `s` the store may get to `t`: only `changed` ids differ, only `removed` ones are gone, no
   frontend dangles.
   */
  ghost predicate Moves(s: Store, t: Store, changed: set<Id>, removed: set<Id>) {
    Elsewhere(s, t, changed) && Keeps(s, t, removed) && NewAreOwn(s, t) && NoDangling(t)
  }

  lemma {:induction false} MovesTwice(s: Store, t: Store, u: Store, c: set<Id>, r: set<Id>, c': set<Id>, r': set<Id>)
    requires Moves(s, t, c, r) && Moves(t, u, c', r')
    ensures Moves(s, u, c + c', r + r')
  {
    forall k | k in u.frontends
      ensures (k in s.frontends && u.frontends[k] == s.frontends[k]) || u.frontends[k].backend == k
    {
      assert (k in t.frontends && u.frontends[k] == t.frontends[k]) || u.frontends[k].backend == k;
    }
    ElsewhereMore(s, t, c, c + c');
    ElsewhereMore(t, u, c', c + c');
    ElsewhereTwice(s, t, u, c + c');
  }

  lemma {:induction false} MovesMore(s: Store, t: Store, c: set<Id>, r: set<Id>, c': set<Id>, r': set<Id>)
    requires Moves(s, t, c, r) && c <= c' && r <= r'
    ensures Moves(s, t, c', r')
  {
    ElsewhereMore(s, t, c, c');
  }

  lemma {:induction false} ElsewhereTwice(s: Store, t: Store, u: Store, ids: set<Id>)
    requires Elsewhere(s, t, ids) && Elsewhere(t, u, ids)
    ensures Elsewhere(s, u, ids)
  {
  }

  lemma {:induction false} ElsewhereMore(s: Store, t: Store, ids: set<Id>, more: set<Id>)
    requires Elsewhere(s, t, ids) && ids <= more
    ensures Elsewhere(s, t, more)
  {
  }

  lemma {:induction false} OwnStays(s: Store, t: Store, ids: set<Id>)
    requires NewAreOwn(s, t) && Own(s, ids)
    ensures Own(t, ids)
  {
    forall k | k in t.frontends && t.frontends[k].backend in ids ensures t.frontends[k].backend == k {
      assert (k in s.frontends && t.frontends[k] == s.frontends[k]) || t.frontends[k].backend == k;
    }
  }

  /** Removing a resource leaves no dangling frontend exactly when no other resource's frontend uses its backend. */
  lemma {:induction false} RemovalSafeIff(s: Store, id: Id)
    requires NoDangling(s)
    ensures NoDangling(Removed(s, id)) <==> Own(s, {id})
  {
    var t := Removed(s, id);
    if NoDangling(t) {
      forall k | k in s.frontends && s.frontends[k].backend in {id} ensures s.frontends[k].backend == k {
        assert k in t.frontends <==> k != id;
      }
    }
    if Own(s, {id}) {
      forall k | k in t.frontends ensures t.frontends[k].backend in t.backends {
        assert k in s.frontends && s.frontends[k].backend in s.backends;
        assert s.frontends[k].backend != id;
      }
    }
  }

  /** A frontend that borrows another resource's backend is left dangling when that resource goes. */
  lemma {:induction false} BorrowedBackendDangles()
    ensures var s := Store(map["a" := Backend("", map[])], map["b" := Frontend("a", "")]);
            NoDangling(s) && !NoDangling(Removed(s, "a"))
  {
    var s := Store(map["a" := Backend("", map[])], map["b" := Frontend("a", "")]);
    assert "b" in Removed(s, "a").frontends;
  }

  // ---------- convergence ----------

  lemma {:induction false} SetBackendsAgree(s: Store, t: Store, bs: seq<BackendSpec>, left: set<Id>)
    requires forall k :: k !in left ==> (k in t.backends <==> k in s.backends)
    requires forall k :: k !in left && k in s.backends ==> t.backends[k] == s.backends[k]
    ensures var (s', t') := (SetBackends(s, bs), SetBackends(t, bs));
            && s'.frontends == s.frontends && t'.frontends == t.frontends
            && (forall k :: k !in left - BackendIds(bs) ==> (k in t'.backends <==> k in s'.backends))
            && (forall k :: k !in left - BackendIds(bs) && k in s'.backends ==> t'.backends[k] == s'.backends[k])
    decreases |bs|
  {
    if bs != [] {
      var b := bs[|bs| - 1];
      SetBackendsAgree(s, t, bs[..|bs| - 1], left);
      assert BackendIds(bs) == BackendIds(bs[..|bs| - 1]) + {b.id} by {
        assert bs == bs[..|bs| - 1] + [b];
      }
    }
  }

  lemma {:induction false} PutFrontendsAgree(s: Store, t: Store, fs: seq<FrontendSpec>, left: set<Id>)
    requires forall k :: k !in left ==> (k in t.frontends <==> k in s.frontends)
    requires forall k :: k !in left && k in s.frontends ==> t.frontends[k] == s.frontends[k]
    ensures var (s', t') := (PutFrontends(s, fs), PutFrontends(t, fs));
            && s'.backends == s.backends && t'.backends == t.backends
            && (forall k :: k !in left - FrontendIds(fs) ==> (k in t'.frontends <==> k in s'.frontends))
            && (forall k :: k !in left - FrontendIds(fs) && k in s'.frontends ==> t'.frontends[k] == s'.frontends[k])
    decreases |fs|
  {
    if fs != [] {
      var f := fs[|fs| - 1];
      PutFrontendsAgree(s, t, fs[..|fs| - 1], left);
      assert FrontendIds(fs) == FrontendIds(fs[..|fs| - 1]) + {f.id} by {
        assert fs == fs[..|fs| - 1] + [f];
      }
    }
  }

  /** Whatever earlier attempts left at the batch's ids, a clean run ends in the same store. */
  lemma {:induction false} CleanRunForgets(s: Store, t: Store, bs: seq<BackendSpec>, fs: seq<FrontendSpec>)
    requires BackendIds(bs) == FrontendIds(fs) && Elsewhere(s, t, BackendIds(bs))
    ensures Upserted(t, bs, fs) == Upserted(s, bs, fs)
  {
    var ids := BackendIds(bs);
    SetBackendsAgree(s, t, bs, ids);
    var s', t' := SetBackends(s, bs), SetBackends(t, bs);
    PutFrontendsAgree(s', t', fs, ids);
    var s'', t'' := Upserted(s, bs, fs), Upserted(t, bs, fs);
    assert s''.backends == t''.backends;
    assert s''.frontends == t''.frontends;
  }

  lemma {:induction false} RemovalForgets(s: Store, t: Store, id: Id)
    requires Elsewhere(s, t, {id})
    ensures Removed(t, id) == Removed(s, id)
  {
    assert Removed(t, id).backends == Removed(s, id).backends;
    assert Removed(t, id).frontends == Removed(s, id).frontends;
  }

  lemma {:induction false} SetBackendsKeys(s: Store, bs: seq<BackendSpec>)
    ensures SetBackends(s, bs).backends.Keys == s.backends.Keys + BackendIds(bs)
    ensures SetBackends(s, bs).frontends == s.frontends
    decreases |bs|
  {
    if bs != [] {
      var b := bs[|bs| - 1];
      SetBackendsKeys(s, bs[..|bs| - 1]);
      assert BackendIds(bs) == BackendIds(bs[..|bs| - 1]) + {b.id} by {
        assert bs == bs[..|bs| - 1] + [b];
      }
    }
  }

  lemma {:induction false} PutFrontendsKeys(s: Store, fs: seq<FrontendSpec>)
    ensures PutFrontends(s, fs).frontends.Keys == s.frontends.Keys + FrontendIds(fs)
    ensures PutFrontends(s, fs).backends == s.backends
    decreases |fs|
  {
    if fs != [] {
      var f := fs[|fs| - 1];
      PutFrontendsKeys(s, fs[..|fs| - 1]);
      assert FrontendIds(fs) == FrontendIds(fs[..|fs| - 1]) + {f.id} by {
        assert fs == fs[..|fs| - 1] + [f];
      }
    }
  }

  lemma {:induction false} RemovedAllKeys(s: Store, ids: seq<Id>)
    ensures RemovedAll(s, ids).backends.Keys == s.backends.Keys - (set i | i in ids)
    ensures RemovedAll(s, ids).frontends.Keys == s.frontends.Keys - (set i | i in ids)
    decreases |ids|
  {
    if ids != [] {
      RemovedAllKeys(s, ids[..|ids| - 1]);
      assert ids == ids[..|ids| - 1] + [ids[|ids| - 1]];
    }
  }

  /** A fully successful update leaves the ids that were there or are new, less those only in the previous list. */
  lemma {:induction false} UpdateIds(s: Store, bs: seq<BackendSpec>, fs: seq<FrontendSpec>, removals: seq<Id>)
    ensures var t := RemovedAll(Upserted(s, bs, fs), removals);
            && t.backends.Keys == (s.backends.Keys + BackendIds(bs)) - (set i | i in removals)
            && t.frontends.Keys == (s.frontends.Keys + FrontendIds(fs)) - (set i | i in removals)
  {
    SetBackendsKeys(s, bs);
    PutFrontendsKeys(SetBackends(s, bs), fs);
    RemovedAllKeys(Upserted(s, bs, fs), removals);
  }

  /** The last backend listed under an id has exactly its own settings and servers. */
  lemma {:induction false} ExactServers(s: Store, bs: seq<BackendSpec>, i: nat)
    requires i < |bs| && forall j :: i < j < |bs| ==> bs[j].id != bs[i].id
    ensures bs[i].id in SetBackends(s, bs).backends
    ensures SetBackends(s, bs).backends[bs[i].id] == Backend(bs[i].settings, ServerMap(bs[i].servers))
    decreases |bs|
  {
    if i < |bs| - 1 {
      ExactServers(s, bs[..|bs| - 1], i);
    }
  }
}
