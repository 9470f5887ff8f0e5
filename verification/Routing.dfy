/** Which client a path and a descriptor lead to: the two tables of the interposed calls and the
    pool's idle and busy clients. A client is referred to by its id, which is never reused. */
module Routing {

  /** The fields of a client that routing depends on. */
  datatype LogClient = LogClient(filename: string, inUse: bool)

  lemma {:induction false} LeastKey(keys: set<nat>) returns (k: nat)
    requires keys != {}
    ensures k in keys && forall j :: j in keys ==> k <= j
  {
    k :| k in keys;
    var rest := keys - {k};
    assert forall j :: j in keys ==> j == k || j in rest;
    if rest != {} {
      var r := LeastKey(rest);
      if r < k { k := r; }
    }
  }

  lemma {:induction false} Below(ids: set<nat>, n: nat)
    requires forall i: nat :: i in ids <==> i < n
    ensures |ids| == n
  {
    if n == 0 {
      assert ids == {};
    } else {
      Below(ids - {n - 1}, n - 1);
    }
  }

  class Tables {
    /** csl_fd_cli and csl_path_cli. */
    var fdCli: map<int, nat>
    var pathCli: map<string, nat>
    /** idle_clients and busy_clients, and what their clients hold. */
    var idle: set<nat>
    var busy: set<nat>
    var clients: map<nat, LogClient>
    var globalId: nat
    /** The path each descriptor in fdCli was opened with. */
    ghost var openedAs: map<int, string>

    /** Every id ever given out is either idle or busy, never both. */
    ghost predicate PoolOk()
      reads this
    {
      && idle !! busy
      && (forall i: nat :: i in idle + busy <==> i < globalId)
      && clients.Keys == idle + busy
      && (forall i :: i in idle ==> clients[i] == LogClient("", false))
      && (forall i :: i in busy ==> clients[i].inUse)
    }

    /** csl_path_cli is a bijection onto the busy clients, each carrying its path. */
    ghost predicate PathsOk()
      reads this
      requires PoolOk()
    {
      && (forall p :: p in pathCli ==> pathCli[p] in busy && clients[pathCli[p]].filename == p)
      && (forall i :: i in busy ==> clients[i].filename in pathCli && pathCli[clients[i].filename] == i)
    }

    ghost predicate Valid()
      reads this
    {
      && PoolOk() && PathsOk()
      && openedAs.Keys == fdCli.Keys
      && (forall fd :: fd in fdCli ==> fdCli[fd] in clients)
    }

    /** Every descriptor leads to the client of the path it was opened with. */
    ghost predicate Routed()
      reads this
    {
      forall fd :: fd in fdCli ==> fd in openedAs && openedAs[fd] in pathCli && pathCli[openedAs[fd]] == fdCli[fd]
    }

    /** Idle and busy clients together are all the pool has made. */
    lemma Counts()
      requires Valid()
      ensures |idle| + |busy| == globalId
    {
      Below(idle + busy, globalId);
      assert |idle + busy| == |idle| + |busy|;
    }

    constructor ()
      ensures Valid() && Routed() && fdCli == map[] && pathCli == map[] && globalId == 0 && idle == {}
    {
      fdCli, pathCli, idle, busy, clients, globalId, openedAs := map[], map[], {}, {}, map[], 0, map[];
    }

    /** CSLClientPool::GetClient: a new client when none is idle, otherwise the idle client with
        the least id. */
    method PoolGetClient(filename: string) returns (id: nat)
      requires PoolOk()
      modifies this`idle, this`busy, this`clients, this`globalId
      ensures PoolOk() && id !in old(busy) && busy == old(busy) + {id}
      ensures clients == old(clients)[id := LogClient(filename, true)]
      ensures old(idle) == {} ==> id == old(globalId) && idle == {} && globalId == id + 1
      ensures old(idle) != {} ==>
                && id in old(idle) && idle == old(idle) - {id} && globalId == old(globalId)
                && forall j :: j in old(idle) ==> id <= j
    {
      if idle == {} {
        id := globalId;
        globalId := globalId + 1;
      } else {
        ghost var least := LeastKey(idle);
        id :| id in idle && forall j :: j in idle ==> id <= j;
        idle := idle - {id};
      }
      clients := clients[id := LogClient(filename, true)];
      busy := busy + {id};
    }

    /** CSLClientPool::RecycleClient. */
    method RecycleClient(id: nat)
      requires PoolOk()
      modifies this`idle, this`busy, this`clients
      ensures PoolOk()
      ensures if id in old(busy)
              then
                && busy == old(busy) - {id} && idle == old(idle) + {id}
                && clients == old(clients)[id := LogClient("", false)]
              else busy == old(busy) && idle == old(idle) && clients == old(clients)
    {
      if id !in busy {
        return;
      }
      busy := busy - {id};
      clients := clients[id := LogClient("", false)];
      idle := idle + {id};
    }

    /** getClient's lookup: a path without an entry gets a client from the pool. */
    method ClientOf(pathname: string) returns (id: nat)
      requires Valid()
      modifies this`pathCli, this`idle, this`busy, this`clients, this`globalId
      ensures Valid() && pathname in pathCli && id == pathCli[pathname]
      ensures pathname in old(pathCli) ==> pathCli == old(pathCli) && idle == old(idle) && globalId == old(globalId)
      ensures pathname !in old(pathCli) ==>
                && pathCli == old(pathCli)[pathname := id] && id !in old(busy)
                && (if old(idle) == {} then id == old(globalId) && idle == {} && globalId == id + 1
                    else id in old(idle) && idle == old(idle) - {id} && globalId == old(globalId)
                         && forall j :: j in old(idle) ==> id <= j)
    {
      if pathname in pathCli {
        return pathCli[pathname];
      }
      id := PoolGetClient(pathname);
      pathCli := pathCli[pathname := id];
    }

    /** getClient: the client of an open path, or one from the pool; a descriptor already in
        the table keeps its entry. */
    method GetClient(pathname: string, fd: int) returns (id: nat)
      requires Valid()
      modifies this
      ensures Valid() && pathname in pathCli && id == pathCli[pathname]
      ensures pathname in old(pathCli) ==> pathCli == old(pathCli) && idle == old(idle)
      ensures pathname !in old(pathCli) ==>
                && pathCli == old(pathCli)[pathname := id] && id !in old(busy)
                && (if old(idle) == {} then id == old(globalId) && idle == {}
                    else id in old(idle) && idle == old(idle) - {id} && forall j :: j in old(idle) ==> id <= j)
      ensures if fd >= 0 && fd !in old(fdCli)
              then fdCli == old(fdCli)[fd := id] && openedAs == old(openedAs)[fd := pathname]
              else fdCli == old(fdCli) && openedAs == old(openedAs)
      ensures old(Routed()) ==> Routed()
    {
      id := ClientOf(pathname);
      if fd >= 0 && fd !in fdCli {
        fdCli := fdCli[fd := id];
        openedAs := openedAs[fd := pathname];
      }
    }

    /** close: the descriptor goes, the client stays until its path is unlinked. */
    method Close(fd: int)
      requires Valid()
      modifies this`fdCli, this`openedAs
      ensures Valid() && fdCli == old(fdCli) - {fd} && openedAs == old(openedAs) - {fd}
      ensures old(Routed()) ==> Routed()
    {
      fdCli := fdCli - {fd};
      openedAs := openedAs - {fd};
    }

    /** unlink: the path's client is recycled. Descriptors stay routed if and only if none was
        open on the path. */
    method Unlink(pathname: string)
      requires Valid()
      modifies this
      ensures Valid() && pathCli == old(pathCli) - {pathname} && fdCli == old(fdCli) && openedAs == old(openedAs)
      ensures idle == old(idle) + (if pathname in old(pathCli) then {old(pathCli)[pathname]} else {})
      ensures old(Routed()) ==> (Routed() <==> forall fd :: fd in openedAs ==> openedAs[fd] != pathname)
    {
      if pathname in pathCli {
        RecycleClient(pathCli[pathname]);
        pathCli := pathCli - {pathname};
      }
    }
  }

  /** The descriptor of an unlinked path goes on to reach whatever file is opened next. */
  method UnlinkedDescriptor(p: string, q: string) returns (t: Tables)
    requires p != q
    ensures t.Valid() && 3 in t.fdCli && 4 in t.fdCli && t.openedAs[3] == p && t.openedAs[4] == q
    ensures t.fdCli[3] == t.fdCli[4] && t.clients[t.fdCli[3]].filename == q
  {
    t := new Tables();
    var first := t.GetClient(p, 3);
    t.Unlink(p);
    var second := t.GetClient(q, 4);
  }
}
