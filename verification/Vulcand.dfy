/**
 The vulcand load balancer over an unreliable store: a call may fail, and a failed call may or
 may not have taken effect.
 */
module Vulcand {
  import opened Store

  /** The servers after the first of `servers` have been upserted over those already there. */
  function Overlay(before: map<Id, string>, servers: seq<Server>): map<Id, string> {
    if servers == [] then before
    else Overlay(before, servers[..|servers| - 1])[servers[|servers| - 1].id := servers[|servers| - 1].url]
  }

  function ServerIds(servers: seq<Server>): set<Id> { set x | x in servers :: x.id }

  lemma {:induction false} OverlayIs(before: map<Id, string>, servers: seq<Server>)
    ensures Overlay(before, servers) == before + ServerMap(servers)
    decreases |servers|
  {
    if servers == [] {
      assert before + map[] == before;
    } else {
      var init, last := servers[..|servers| - 1], servers[|servers| - 1];
      OverlayIs(before, init);
      PlusUpdate(before, ServerMap(init), last.id, last.url);
    }
  }

  lemma {:induction false} PlusUpdate(a: map<Id, string>, b: map<Id, string>, k: Id, v: string)
    ensures (a + b)[k := v] == a + b[k := v]
  {
  }

  lemma {:induction false} ServerMapKeys(servers: seq<Server>)
    ensures ServerMap(servers).Keys == ServerIds(servers)
    decreases |servers|
  {
    if servers != [] {
      var init, last := servers[..|servers| - 1], servers[|servers| - 1];
      ServerMapKeys(init);
      IdsSnoc(init, last);
      assert servers == init + [last];
    }
  }

  lemma {:induction false} IdsSnoc(init: seq<Server>, last: Server)
    ensures ServerIds(init + [last]) == ServerIds(init) + {last.id}
  {
  }

  /** Upserting the wanted servers and deleting the others leaves exactly the wanted ones. */
  lemma {:induction false} ExtraRemoved(before: map<Id, string>, servers: seq<Server>)
    ensures Overlay(before, servers) - (before.Keys - ServerIds(servers)) == ServerMap(servers)
  {
    OverlayIs(before, servers);
    ServerMapKeys(servers);
  }

  /** The servers backend `id` has. */
  function ServersOf(s: Store, id: Id): map<Id, string> {
    if id in s.backends then s.backends[id].servers else map[]
  }

  /** The servers backend `b` has and should not have. */
  function Stale(s: Store, b: BackendSpec): set<Id> { ServersOf(s, b.id).Keys - ServerIds(b.servers) }

  /** What an upsert of `b` comes to when the stale servers `kept` are not removed. */
  function Keeping(s: Store, b: BackendSpec, kept: set<Id>): Store {
    With(s, b, Overlay(ServersOf(s, b.id), b.servers) - (Stale(s, b) - kept))
  }

  /** Such an upsert gives every server wanted, and exactly those if and only if no stale one was kept. */
  lemma {:induction false} KeepingIff(s: Store, b: BackendSpec, kept: set<Id>)
    requires kept <= Stale(s, b)
    ensures Covers(SetBackend(s, b), Keeping(s, b, kept))
    ensures Keeping(s, b, kept) == SetBackend(s, b) <==> kept == {}
    ensures Keeping(s, b, kept).backends[b.id].servers == ServerMap(b.servers) <==> kept == {}
  {
    var before := ServersOf(s, b.id);
    var after := Overlay(before, b.servers) - (Stale(s, b) - kept);
    OverlayIs(before, b.servers);
    ServerMapKeys(b.servers);
    assert kept == {} ==> Stale(s, b) - kept == Stale(s, b);
    if kept == {} {
      ExtraRemoved(before, b.servers);
    } else {
      var id :| id in kept;
      assert id in after && id !in ServerMap(b.servers);
      assert Keeping(s, b, kept).backends[b.id].servers == after;
      assert SetBackend(s, b).backends[b.id].servers == ServerMap(b.servers);
    }
  }

  /** When the listing of the servers fails, a stale server stays although the upsert succeeds. */
  lemma {:induction false} UnlistedServerStays()
    ensures var s := Store(map["a" := Backend("", map["old" := "u"])], map[]);
            var b := BackendSpec("a", "", [Server("new", "v")]);
            var t := Keeping(s, b, Stale(s, b));
            "new" in t.backends["a"].servers && "old" in t.backends["a"].servers && t != SetBackend(s, b)
  {
    var s := Store(map["a" := Backend("", map["old" := "u"])], map[]);
    var b := BackendSpec("a", "", [Server("new", "v")]);
    var before := map["old" := "u"];
    OverlayIs(before, b.servers);
    ServerMapKeys(b.servers);
    assert Server("new", "v") in b.servers && "old" in Stale(s, b) by {
      assert ServerIds(b.servers) == {"new"};
    }
    assert "new" in ServerMap(b.servers);
    KeepingIff(s, b, Stale(s, b));
  }

  /** `t` is `s` but for backend `id`, which is there in `t` if it was in `s`. */
  ghost predicate BackendOnly(s: Store, t: Store, id: Id) {
    t.frontends == s.frontends && t.backends - {id} == s.backends - {id} && (id in s.backends ==> id in t.backends)
  }

  lemma {:induction false} BackendOnlyMoves(s: Store, t: Store, id: Id)
    requires NoDangling(s) && BackendOnly(s, t, id)
    ensures Moves(s, t, {id}, {})
  {
    forall k | k != id
      ensures (k in t.backends <==> k in s.backends) && (k in s.backends ==> t.backends[k] == s.backends[k])
    {
      assert k in t.backends - {id} <==> k in t.backends;
      assert k in s.backends - {id} <==> k in s.backends;
      assert k in s.backends ==> (s.backends - {id})[k] == s.backends[k];
      assert k in t.backends ==> (t.backends - {id})[k] == t.backends[k];
    }
  }

  /** `s` with backend `b` holding just `servers`. */
  function With(s: Store, b: BackendSpec, servers: map<Id, string>): Store {
    s.(backends := s.backends[b.id := Backend(b.settings, servers)])
  }

  lemma {:induction false} WithServer(s: Store, b: BackendSpec, servers: map<Id, string>, x: Server)
    ensures PutServer(With(s, b, servers), b.id, x) == With(s, b, servers[x.id := x.url])
    ensures DropServer(With(s, b, servers), b.id, x.id) == With(s, b, servers - {x.id})
  {
  }

  lemma {:induction false} ServerCalls(s: Store, t: Store, id: Id, x: Server)
    requires BackendOnly(s, t, id)
    ensures BackendOnly(s, PutServer(t, id, x), id) && BackendOnly(s, DropServer(t, id, x.id), id)
    ensures id in t.backends ==> id in PutServer(t, id, x).backends && id in DropServer(t, id, x.id).backends
  {
    assert PutServer(t, id, x).backends - {id} == t.backends - {id};
    assert DropServer(t, id, x.id).backends - {id} == t.backends - {id};
  }

  lemma {:induction false} BackendCall(s: Store, b: BackendSpec)
    ensures BackendOnly(s, PutBackend(s, b), b.id)
    ensures b.id in PutBackend(s, b).backends
    ensures PutBackend(s, b) == With(s, b, PutBackend(s, b).backends[b.id].servers)
  {
    assert PutBackend(s, b).backends - {b.id} == s.backends - {b.id};
  }

  lemma {:induction false} NextServer(servers: seq<Server>, i: nat, before: map<Id, string>)
    requires i < |servers|
    ensures Overlay(before, servers[..i + 1]) == Overlay(before, servers[..i])[servers[i].id := servers[i].url]
    ensures ServerIds(servers[..i + 1]) == ServerIds(servers[..i]) + {servers[i].id}
  {
    assert servers[..i + 1] == servers[..i] + [servers[i]];
    assert servers[..i + 1][..i] == servers[..i];
  }

  lemma MinusOneMore(m: map<Id, string>, gone: set<Id>, id: Id)
    ensures m - gone - {id} == m - (gone + {id})
  {
  }

  class LoadBalancer {
    var state: Store
    /** The store after each call. */
    ghost var trace: seq<Store>
    /** No upsert since the last reset has left a stale server. */
    ghost var exact: bool
    /** How many calls have failed, and how many commits have run out of time. */
    ghost var faults: nat

    constructor (state: Store)
      ensures this.state == state && trace == [] && faults == 0
    {
      this.state, trace, exact, faults := state, [], true, 0;
    }

    /** A new attempt begins. */
    ghost method Begin()
      modifies this`exact
      ensures exact
    {
      exact := true;
    }

    /** A call that should bring the store to `after`. */
    method Call(after: Store) returns (ok: bool)
      modifies this`state, this`trace, this`faults
      ensures state == after || (!ok && state == old(state))
      ensures trace == old(trace) + [state] && faults == old(faults) + if ok then 0 else 1
    {
      ok := *;
      if ok {
        state := after;
      } else {
        if * { state := after; }
        faults := faults + 1;
      }
      trace := trace + [state];
    }

    /** What every call between length `n` of the trace and now did was to change backend `id`, starting from `s`. */
    ghost predicate BackendsSince(n: nat, s: Store, id: Id)
      reads this
    {
      && n <= |trace| && BackendOnly(s, state, id)
      && forall i :: n <= i < |trace| ==> BackendOnly(s, trace[i], id)
    }

    /** The servers of `id`; an error is ignored and reads as no servers. */
    method GetServers(id: Id) returns (ids: set<Id>, ghost listed: bool)
      requires id in state.backends
      modifies this`faults
      ensures ids == if listed then state.backends[id].servers.Keys else {}
      ensures faults == old(faults) + if listed then 0 else 1
    {
      if * {
        ids, listed := state.backends[id].servers.Keys, true;
      } else {
        ids, listed := {}, false;
        faults := faults + 1;
      }
    }

    /** A call about backend `id` alone. */
    method BackendStep(after: Store, ghost n: nat, ghost s: Store, ghost id: Id) returns (ok: bool)
      requires BackendsSince(n, s, id) && BackendOnly(s, after, id) && (id in state.backends ==> id in after.backends)
      modifies this`state, this`trace, this`faults
      ensures state == after || (!ok && state == old(state))
      ensures old(trace) <= trace && BackendsSince(n, s, id) && faults == old(faults) + if ok then 0 else 1
    {
      ok := Call(after);
    }

    /**
     Upsert the backend and its servers, and delete the servers it should not have.  A success
     leaves every wanted server; it leaves exactly those if and only if there was none to remove,
     or the servers were listed and every deletion took effect (`lost` are those that did not).
     */
    method UpsertBackend(b: BackendSpec) returns (ok: bool, ghost listed: bool, ghost lost: set<Id>)
      modifies this
      ensures old(trace) <= trace && BackendsSince(|old(trace)|, old(state), b.id)
      ensures ok ==> b.id in state.backends && Covers(SetBackend(old(state), b), state)
      ensures ok ==> var stale := Stale(old(state), b);
                lost <= stale && state == Keeping(old(state), b, if listed then lost else stale)
      ensures ok ==> (state == SetBackend(old(state), b) <==> Stale(old(state), b) == {} || (listed && lost == {}))
      ensures ok ==> exact == (old(exact) && state == SetBackend(old(state), b))
      ensures !ok ==> exact == old(exact)
      ensures old(faults) <= faults
      ensures faults == old(faults) ==> ok && state == SetBackend(old(state), b)
    {
      ghost var n, s, stale := |trace|, state, Stale(state, b);
      BackendCall(state, b);
      listed, lost := false, {};
      ok := BackendStep(PutBackend(state, b), n, s, b.id);
      if !ok { return; }
      ghost var before := state.backends[b.id].servers;
      var extra;
      extra, listed := GetServers(b.id);
      ok, extra := PutServers(b, extra, s, n, before);
      if !ok { return; }
      lost := DropExtra(b, extra, s, n, before);
      assert listed ==> stale - (extra - lost) == lost && extra - lost == stale - lost;
      assert !listed ==> extra - lost == {} == stale - stale;
      KeepingIff(s, b, if listed then lost else stale);
      exact := exact && state == SetBackend(s, b);
    }

    /** Upsert the wanted servers; `left` are the others among those listed. */
    method PutServers(b: BackendSpec, extra: set<Id>, ghost s: Store, ghost n: nat, ghost before: map<Id, string>)
      returns (ok: bool, left: set<Id>)
      requires BackendsSince(n, s, b.id) && state == With(s, b, before)
      modifies this`state, this`trace, this`faults
      ensures old(trace) <= trace && BackendsSince(n, s, b.id)
      ensures ok ==> left == extra - ServerIds(b.servers) && state == With(s, b, Overlay(before, b.servers))
      ensures old(faults) <= faults && (faults == old(faults) ==> ok)
    {
      left := extra;
      assert b.servers[..0] == [] && ServerIds([]) == {};
      for i := 0 to |b.servers|
        invariant old(trace) <= trace && BackendsSince(n, s, b.id)
        invariant left == extra - ServerIds(b.servers[..i]) && old(faults) <= faults
        invariant state == With(s, b, Overlay(before, b.servers[..i]))
      {
        var x := b.servers[i];
        ServerCalls(s, state, b.id, x);
        WithServer(s, b, Overlay(before, b.servers[..i]), x);
        NextServer(b.servers, i, before);
        ok := BackendStep(PutServer(state, b.id, x), n, s, b.id);
        if !ok { return; }
        left := left - {x.id};
      }
      assert b.servers[..|b.servers|] == b.servers;
      ok := true;
    }

    /** One deletion; `took` says whether it had its effect. */
    method DropOne(b: BackendSpec, id: Id, ghost s: Store, ghost n: nat, ghost servers: map<Id, string>)
      returns (ghost took: bool)
      requires BackendsSince(n, s, b.id) && state == With(s, b, servers)
      modifies this`state, this`trace, this`faults
      ensures old(trace) <= trace && BackendsSince(n, s, b.id)
      ensures state == With(s, b, if took then servers - {id} else servers)
      ensures old(faults) <= faults && (faults == old(faults) ==> took)
    {
      ServerCalls(s, state, b.id, Server(id, ""));
      WithServer(s, b, servers, Server(id, ""));
      var _ := BackendStep(DropServer(state, b.id, id), n, s, b.id);
      took := state == With(s, b, servers - {id});
    }

    /** Delete the extra servers, in any order; failures are ignored, and those without effect leave `lost`. */
    method DropExtra(b: BackendSpec, extra: set<Id>, ghost s: Store, ghost n: nat, ghost before: map<Id, string>)
      returns (ghost lost: set<Id>)
      requires BackendsSince(n, s, b.id) && state == With(s, b, Overlay(before, b.servers))
      modifies this`state, this`trace, this`faults
      ensures old(trace) <= trace && BackendsSince(n, s, b.id) && lost <= extra
      ensures state == With(s, b, Overlay(before, b.servers) - (extra - lost))
      ensures old(faults) <= faults && (faults == old(faults) ==> lost == {})
    {
      var rest := extra;
      ghost var all := Overlay(before, b.servers);
      lost := {};
      ghost var gone: set<Id> := {};
      assert all - gone == all;
      while rest != {}
        invariant old(trace) <= trace && BackendsSince(n, s, b.id)
        invariant rest <= extra && lost <= extra - rest && gone == extra - rest - lost
        invariant state == With(s, b, all - gone)
        invariant old(faults) <= faults && (faults == old(faults) ==> lost == {})
        decreases |rest|
      {
        var id :| id in rest;
        MinusOneMore(all, gone, id);
        ghost var took := DropOne(b, id, s, n, all - gone);
        rest := rest - {id};
        if took {
          gone := gone + {id};
        } else {
          lost := lost + {id};
        }
      }
      assert gone == extra - lost;
    }

    method UpsertFrontend(f: FrontendSpec) returns (ok: bool)
      modifies this`state, this`trace, this`faults
      ensures state == PutFrontend(old(state), f) || (!ok && state == old(state))
      ensures trace == old(trace) + [state] && faults == old(faults) + if ok then 0 else 1
    {
      ok := Call(PutFrontend(state, f));
    }

    method DeleteFrontend(id: Id) returns (ok: bool)
      modifies this`state, this`trace, this`faults
      ensures state == DropFrontend(old(state), id) || (!ok && state == old(state))
      ensures trace == old(trace) + [state] && faults == old(faults) + if ok then 0 else 1
    {
      ok := Call(DropFrontend(state, id));
    }

    method DeleteBackend(id: Id) returns (ok: bool)
      modifies this`state, this`trace, this`faults
      ensures state == DropBackend(old(state), id) || (!ok && state == old(state))
      ensures trace == old(trace) + [state] && faults == old(faults) + if ok then 0 else 1
    {
      ok := Call(DropBackend(state, id));
    }
  }
}
