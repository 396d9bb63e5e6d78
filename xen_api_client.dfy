/** The `Xapi` client object (packages/xen-api/src/index.js): the session
    it holds and the object cache its event loop keeps up to date. Each
    method changes the fields as the functions of XenApiCache and
    XenApiProtocol say. */
module XenApiClient {
  import opened Wrappers
  import opened JsValues
  import opened XenApiProtocol
  import opened XenApiCache

  /** The fields that are not the cache. */
  datatype SessionState = SessionState(
    readOnly: bool,
    sessionId: SessionId,
    auth: Option<Auth>,
    url: Url,
    fromToken: string)

  class Xapi {
    var readOnly: bool
    var sessionId: SessionId
    var auth: Option<Auth>
    var url: Url
    var fromToken: string

    var objects: map<string, Record>
    var byRef: map<string, Record>
    var nTasks: int
    var pool: Option<Record>
    var taskWatchers: map<string, nat>
    var promises: seq<PromiseState>

    function Cache(): Cache
      reads this
    {
      XenApiCache.Cache(objects, byRef, nTasks, pool, taskWatchers, promises)
    }

    function Session(): SessionState
      reads this
    {
      SessionState(readOnly, sessionId, auth, url, fromToken)
    }

    predicate Valid()
      reads this
    {
      Inv(Cache())
    }

    /** `new Xapi(opts)` with events watched; `url` is the result of
        `parseUrl(opts.url)`. Credentials embedded in the URL are used when
        `opts.auth` is missing. */
    constructor (url: Url, auth: Option<Auth>, readOnly: Value)
      ensures Valid() && TaskCount(Cache())
      ensures Cache() == EmptyCache()
      ensures Session() ==
        SessionState(Truthy(readOnly), NoSession, ResolveAuth(auth, url).0, ResolveAuth(auth, url).1, "")
    {
      var resolved := ResolveAuth(auth, url);
      this.readOnly := Truthy(readOnly);
      this.sessionId := NoSession;
      this.auth := resolved.0;
      this.url := resolved.1;
      this.fromToken := "";
      this.objects := map[];
      this.byRef := map[];
      this.nTasks := 0;
      this.pool := None;
      this.taskWatchers := map[];
      this.promises := [];
    }

    /** The `readOnly` setter. */
    method SetReadOnly(ro: Value)
      modifies this
      ensures Session() == old(Session()).(readOnly := Truthy(ro))
      ensures Cache() == old(Cache())
    {
      readOnly := Truthy(ro);
    }

    // ----- session

    /** `connect()`, up to the login request: refused when connected,
        connecting or without credentials; otherwise the session becomes
        CONNECTING. */
    method Connect() returns (r: Result<(), string>)
      modifies this
      ensures Cache() == old(Cache())
      ensures old(StatusOf(sessionId)) == Connected ==> r == Err("already connected")
      ensures old(StatusOf(sessionId)) == Connecting ==> r == Err("already connecting")
      ensures old(StatusOf(sessionId)) == Disconnected && old(auth).None? ==> r == Err("missing credentials")
      ensures r.Ok? <==> old(StatusOf(sessionId)) == Disconnected && old(auth).Some?
      ensures r.Ok? ==> Session() == old(Session()).(sessionId := ConnectingMarker)
      ensures r.Err? ==> Session() == old(Session())
    {
      var status := StatusOf(sessionId);
      if status == Connected {
        return Err("already connected");
      }
      if status == Connecting {
        return Err("already connecting");
      }
      if auth.None? {
        return Err("missing credentials");
      }
      sessionId := ConnectingMarker;
      return Ok(());
    }

    /** The login answered with a session token. */
    method LoginSucceeded(token: string)
      modifies this
      ensures Session() == old(Session()).(sessionId := Token(token))
      ensures Cache() == old(Cache())
    {
      sessionId := Token(token);
    }

    /** The login failed: back to no session. */
    method LoginFailed()
      modifies this
      ensures Session() == old(Session()).(sessionId := NoSession)
      ensures Cache() == old(Cache())
    {
      sessionId := NoSession;
    }

    /** `disconnect()`: refused when disconnected; otherwise the session is
        dropped, and the `disconnected` handler resets the event token and
        empties the id index. */
    method Disconnect() returns (r: Result<(), string>)
      requires Valid()
      modifies this
      ensures Valid()
      ensures r.Err? <==> old(StatusOf(sessionId)) == Disconnected
      ensures r.Err? ==> r == Err("already disconnected") && Session() == old(Session()) && Cache() == old(Cache())
      ensures r.Ok? ==> Session() == old(Session()).(sessionId := NoSession, fromToken := "")
      ensures r.Ok? ==> Cache() == ClearIndex(old(Cache()))
      ensures StatusOf(sessionId) == Disconnected
    {
      if StatusOf(sessionId) == Disconnected {
        return Err("already disconnected");
      }
      sessionId := NoSession;
      fromToken := "";
      objects := map[];
      return Ok(());
    }

    // ----- the cache

    /** `_addObject(type, ref, object)`. */
    method AddObject(kind: string, ref: string, snap: Snapshot)
      requires Valid()
      modifies this
      ensures Cache() == XenApiCache.AddObject(old(Cache()), kind, ref, snap)
      ensures Session() == old(Session())
      ensures Valid()
    {
      ghost var c := Cache();
      AddObjectInv(c, kind, ref, snap);
      var rec := WrapRecord(kind, ref, snap);
      var objs, refs, n, pl, ws, ps := objects, byRef, nTasks, pool, taskWatchers, promises;
      if ref in refs && refs[ref].id != rec.id {
        objs := objs - {refs[ref].id};
      }
      var isNew := ref !in refs;
      objs := objs[rec.id := rec];
      refs := refs[ref := rec];
      if kind == "pool" {
        pl := Some(rec);
      } else if kind == "task" {
        if isNew {
          n := n + 1;
        }
        var outcome := GetTaskResult(rec);
        if outcome.Some? && ref in ws {
          ps := ps[ws[ref] := Settled(outcome.value)];
          ws := ws - {ref};
        }
      }
      assert XenApiCache.Cache(objs, refs, n, pl, ws, ps) == XenApiCache.AddObject(c, kind, ref, snap);
      objects, byRef, nTasks, pool, taskWatchers, promises := objs, refs, n, pl, ws, ps;
    }

    /** `_removeObject(type, ref)`. */
    method RemoveObject(kind: string, ref: string)
      requires Valid()
      modifies this
      ensures Cache() == XenApiCache.RemoveObject(old(Cache()), kind, ref)
      ensures Session() == old(Session())
      ensures Valid()
    {
      ghost var c := Cache();
      RemoveObjectInv(c, kind, ref);
      var objs, refs, n, ws, ps := objects, byRef, nTasks, taskWatchers, promises;
      var task: Option<Record> := None;
      if ref in refs {
        var rec := refs[ref];
        task := Some(rec);
        objs := objs - {rec.id};
        refs := refs - {ref};
        if kind == "task" {
          n := n - 1;
        }
      }
      if ref in ws {
        var error := Destroyed("task has been destroyed before completion", task, ref);
        ps := ps[ws[ref] := Settled(Rejected(error))];
        ws := ws - {ref};
      }
      assert XenApiCache.Cache(objs, refs, n, pool, ws, ps) == XenApiCache.RemoveObject(c, kind, ref);
      objects, byRef, nTasks, taskWatchers, promises := objs, refs, n, ws, ps;
    }

    /** `_processEvents(events)`. */
    method ProcessEvents(events: seq<Event>)
      requires Valid()
      modifies this
      ensures Valid()
      ensures Cache() == XenApiCache.ProcessEvents(old(Cache()), events)
      ensures Session() == old(Session())
    {
      ghost var c := Cache();
      var i := 0;
      while i < |events|
        invariant 0 <= i <= |events|
        invariant Valid()
        invariant Cache() == XenApiCache.ProcessEvents(c, events[..i])
        invariant Session() == old(Session())
      {
        var e := events[i];
        assert events[..i + 1][..i] == events[..i];
        if e.operation == "del" {
          RemoveObject(e.objClass, e.ref);
        } else {
          AddObject(e.objClass, e.ref, e.snapshot);
        }
        i := i + 1;
      }
      assert events[..|events|] == events;
    }

    /** A successful `event.from`: remember the token, apply the events and
        say whether the server's task count calls for a reconciliation. */
    method OnEvents(events: seq<Event>, token: string, serverTasks: int) returns (reconcile: bool)
      requires Valid()
      modifies this
      ensures Valid()
      ensures Cache() == XenApiCache.ProcessEvents(old(Cache()), events)
      ensures Session() == old(Session()).(fromToken := token)
      ensures reconcile <==> serverTasks != nTasks
    {
      fromToken := token;
      ProcessEvents(events);
      reconcile := serverTasks != nTasks;
    }

    /** `EVENTS_LOST`: restart from an empty token with an empty id index. */
    method OnEventsLost()
      requires Valid()
      modifies this
      ensures Valid()
      ensures Cache() == ClearIndex(old(Cache()))
      ensures Session() == old(Session()).(fromToken := "")
    {
      fromToken := "";
      objects := map[];
    }

    /** The reconciliation after `task.get_all_records`: every fetched task
        is added, and every other cached task removed. The tasks to remove
        are collected from the by-reference index (see `ReconcileAsWritten`
        for the source's choice of the id index). `removed` is the order in
        which they went. */
    method ReconcileTasks(fetched: seq<(string, Snapshot)>) returns (removed: seq<string>)
      requires Valid()
      modifies this
      ensures Valid()
      ensures Enumerates(removed, TaskRefs(old(byRef)) - FetchedRefs(fetched))
      ensures Cache() == Reconcile(old(Cache()), fetched, removed)
      ensures Session() == old(Session())
    {
      var toRemove := AddFetchedTasks(fetched);
      removed := RemoveStaleTasks(toRemove);
    }

    /** The first half of the reconciliation: add the fetched tasks and
        strike them from the tasks to remove. */
    method AddFetchedTasks(fetched: seq<(string, Snapshot)>) returns (toRemove: set<string>)
      requires Valid()
      modifies this
      ensures Valid()
      ensures toRemove == TaskRefs(old(byRef)) - FetchedRefs(fetched)
      ensures Cache() == AddTasks(old(Cache()), fetched)
      ensures Session() == old(Session())
    {
      ghost var c := Cache();
      toRemove := set r | r in byRef && byRef[r].kind == "task";
      var i := 0;
      while i < |fetched|
        invariant 0 <= i <= |fetched|
        invariant Valid()
        invariant Cache() == AddTasks(c, fetched[..i])
        invariant toRemove == TaskRefs(c.byRef) - FetchedRefs(fetched[..i])
        invariant Session() == old(Session())
      {
        var (ref, snap) := fetched[i];
        ghost var pre := fetched[..i + 1];
        assert pre[..i] == fetched[..i] && pre[i] == (ref, snap);
        FetchedRefsSnoc(pre);
        assert AddTasks(c, pre) == XenApiCache.AddObject(AddTasks(c, fetched[..i]), "task", ref, snap);
        toRemove := toRemove - {ref};
        AddObject("task", ref, snap);
        i := i + 1;
      }
      assert fetched[..|fetched|] == fetched;
    }

    /** The second half: remove the remaining tasks, in the order the set
        yields them. */
    method RemoveStaleTasks(toRemove: set<string>) returns (removed: seq<string>)
      requires Valid()
      modifies this
      ensures Valid()
      ensures Enumerates(removed, toRemove)
      ensures Cache() == RemoveTasks(old(Cache()), removed)
      ensures Session() == old(Session())
    {
      ghost var a := Cache();
      var rest := toRemove;
      removed := [];
      while rest != {}
        invariant Valid()
        invariant Cache() == RemoveTasks(a, removed)
        invariant rest <= toRemove
        invariant forall k :: 0 <= k < |removed| ==> removed[k] in toRemove && removed[k] !in rest
        invariant forall r :: r in toRemove ==> r in rest || r in removed
        invariant forall k, l :: 0 <= k < l < |removed| ==> removed[k] != removed[l]
        invariant Session() == old(Session())
        decreases |rest|
      {
        var r :| r in rest;
        RemoveObject("task", r);
        assert (removed + [r])[..|removed|] == removed;
        removed := removed + [r];
        rest := rest - {r};
      }
    }

    /** `watchTask(ref)`, where `ref` may also be the task record. */
    method WatchTask(task: ObjectKey) returns (p: TaskPromise)
      requires Valid()
      modifies this
      ensures (Cache(), p) == XenApiCache.WatchTask(old(Cache()), TaskRefOf(task))
      ensures Session() == old(Session())
      ensures Valid()
    {
      var ref := TaskRefOf(task);
      if ref in taskWatchers {
        return Deferred(taskWatchers[ref]);
      }
      if ref in byRef {
        var result := GetTaskResult(byRef[ref]);
        if result.Some? {
          return Immediate(result.value);
        }
      }
      p := Deferred(|promises|);
      taskWatchers := taskWatchers[ref := |promises|];
      promises := promises + [Pending];
    }
  }
}
