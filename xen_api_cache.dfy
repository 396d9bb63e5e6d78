/** The object cache of the XenAPI client (packages/xen-api/src/index.js,
    `_addObject`, `_removeObject`, `_processEvents`, the task
    reconciliation of `_watchEvents`, `watchTask` and the `getObject*`
    lookups), as functions of a cache state. The `Xapi` class of module
    XenApiClient updates its fields exactly as these functions say. */
module XenApiCache {
  import opened Wrappers
  import opened JsValues
  import opened XenApiProtocol

  /** A deferred created by `watchTask`. */
  datatype PromiseState = Pending | Settled(outcome: Outcome)

  /** What `watchTask` returns: a promise already settled with the task's
      outcome, or the deferred it shares with every other watcher. */
  datatype TaskPromise = Immediate(outcome: Outcome) | Deferred(index: nat)

  /** The state behind the cache.
      - objects: `_objects`, the collection keyed by `$id`;
      - byRef: `_objectsByRef`;
      - nTasks: `_nTasks`;
      - pool: `_pool`;
      - watchers: `_taskWatchers`, each task reference mapped to its
        deferred, an index into `promises`. */
  datatype Cache = Cache(
    objects: map<string, Record>,
    byRef: map<string, Record>,
    nTasks: int,
    pool: Option<Record>,
    watchers: map<string, nat>,
    promises: seq<PromiseState>)

  /** The state the constructor builds. */
  function EmptyCache(): (c: Cache)
    ensures Inv(c) && TaskCount(c)
  {
    Cache(map[], map[], 0, None, map[], [])
  }

  // ===================================================================
  // Invariants

  /** Every entry of the id index is the current record of its reference,
      filed under its own `$id`. */
  predicate NoStale(c: Cache) {
    forall id :: id in c.objects ==>
      c.objects[id].id == id && c.objects[id].ref in c.byRef && c.byRef[c.objects[id].ref] == c.objects[id]
  }

  predicate RefsConsistent(c: Cache) {
    forall r :: r in c.byRef ==> c.byRef[r].ref == r
  }

  /** Every watcher owns its own pending deferred. */
  predicate WatchersOk(c: Cache) {
    && (forall r :: r in c.watchers ==> c.watchers[r] < |c.promises| && c.promises[c.watchers[r]].Pending?)
    && (forall r, s :: r in c.watchers && s in c.watchers && r != s ==> c.watchers[r] != c.watchers[s])
  }

  predicate Inv(c: Cache) {
    NoStale(c) && RefsConsistent(c) && WatchersOk(c)
  }

  /** The references of the cached tasks. */
  function TaskRefs(byRef: map<string, Record>): set<string> {
    set r | r in byRef && byRef[r].kind == "task"
  }

  /** `_nTasks` counts the cached tasks; it is compared with the server's
      count (`valid_ref_counts.task`) after each batch of events. */
  predicate TaskCount(c: Cache) {
    c.nTasks == |TaskRefs(c.byRef)|
  }

  /** A reference's class never changes (true of XAPI objects); the task
      count relies on it. */
  predicate SameClass(c: Cache, kind: string, ref: string) {
    ref in c.byRef ==> c.byRef[ref].kind == kind
  }

  // ===================================================================
  // Task watchers

  /** Settles the watcher of `ref`, if any, and forgets it. */
  function Settle(c: Cache, ref: string, outcome: Outcome): (d: Cache)
    requires WatchersOk(c)
    ensures WatchersOk(d) && ref !in d.watchers
    ensures d.watchers == c.watchers - {ref}
    ensures |d.promises| == |c.promises|
    ensures ref in c.watchers ==> d.promises[c.watchers[ref]] == Settled(outcome)
    ensures forall i :: 0 <= i < |c.promises| && (ref !in c.watchers || i != c.watchers[ref]) ==>
      d.promises[i] == c.promises[i]
    ensures d.objects == c.objects && d.byRef == c.byRef && d.nTasks == c.nTasks && d.pool == c.pool
  {
    if ref in c.watchers then
      c.(promises := c.promises[c.watchers[ref] := Settled(outcome)], watchers := c.watchers - {ref})
    else c
  }

  /** The argument of `watchTask`: a ref, or a task record (its `$ref`). */
  function TaskRefOf(task: ObjectKey): string {
    match task
    case Name(ref) => ref
    case Of(rec) => rec.ref
  }

  /** `watchTask(ref)`. */
  function WatchTask(c: Cache, ref: string): (r: (Cache, TaskPromise))
    requires WatchersOk(c)
    ensures WatchersOk(r.0)
    ensures r.0.objects == c.objects && r.0.byRef == c.byRef && r.0.nTasks == c.nTasks && r.0.pool == c.pool
    ensures ref in c.watchers ==> r == (c, Deferred(c.watchers[ref]))
    ensures r.1.Immediate? <==>
      ref !in c.watchers && ref in c.byRef && GetTaskResult(c.byRef[ref]).Some?
    ensures r.1.Immediate? ==> r.0 == c && r.1.outcome == GetTaskResult(c.byRef[ref]).value
    ensures r.1.Deferred? ==>
      ref in r.0.watchers && r.0.watchers[ref] == r.1.index && r.0.promises[r.1.index].Pending?
    ensures r.1.Deferred? && ref !in c.watchers ==>
      r.0.watchers == c.watchers[ref := |c.promises|] && r.0.promises == c.promises + [Pending]
  {
    if ref in c.watchers then (c, Deferred(c.watchers[ref]))
    else if ref in c.byRef && GetTaskResult(c.byRef[ref]).Some? then
      (c, Immediate(GetTaskResult(c.byRef[ref]).value))
    else
      (c.(watchers := c.watchers[ref := |c.promises|], promises := c.promises + [Pending]),
       Deferred(|c.promises|))
  }

  /** Two watchers of the same pending task share one deferred. */
  lemma WatchTaskShared(c: Cache, ref: string)
    requires WatchersOk(c)
    ensures WatchTask(c, ref).1.Deferred? ==>
      WatchTask(WatchTask(c, ref).0, ref) == (WatchTask(c, ref).0, WatchTask(c, ref).1)
  {
  }

  // ===================================================================
  // Adding and removing records

  /** The id entry that storing `rec` under `ref` must drop: the previous
      record's `$id` when it differs from the new one. */
  function DropPreviousId(c: Cache, ref: string, rec: Record): map<string, Record> {
    if ref in c.byRef && c.byRef[ref].id != rec.id then c.objects - {c.byRef[ref].id} else c.objects
  }

  /** The same step as the source writes it: it compares the raw `uuid`
      fields, so a record that gains a UUID keeps its old entry (filed
      under its reference). */
  function DropPreviousUuid(c: Cache, ref: string, rec: Record): map<string, Record> {
    if ref in c.byRef && c.byRef[ref].data.uuid != "" && c.byRef[ref].data.uuid != rec.data.uuid
    then c.objects - {c.byRef[ref].data.uuid}
    else c.objects
  }

  /** The rest of `_addObject`, once the id index has dropped what it must:
      file the record, remember the pool, count a new task and settle
      its watcher when the task is over. */
  function Store(c: Cache, kind: string, ref: string, rec: Record, objects: map<string, Record>): (d: Cache)
    requires WatchersOk(c)
    ensures WatchersOk(d)
    ensures d.objects == objects[rec.id := rec] && d.byRef == c.byRef[ref := rec]
    ensures d.pool == if kind == "pool" then Some(rec) else c.pool
    ensures d.nTasks == if kind == "task" && ref !in c.byRef then c.nTasks + 1 else c.nTasks
    ensures kind == "task" && GetTaskResult(rec).Some? ==> d == Settle(c.(objects := d.objects, byRef := d.byRef, nTasks := d.nTasks), ref, GetTaskResult(rec).value)
    ensures !(kind == "task" && GetTaskResult(rec).Some?) ==> d.watchers == c.watchers && d.promises == c.promises
  {
    var c1 := c.(objects := objects[rec.id := rec], byRef := c.byRef[ref := rec]);
    if kind == "pool" then c1.(pool := Some(rec))
    else if kind == "task" then
      var c2 := c1.(nTasks := if ref in c.byRef then c.nTasks else c.nTasks + 1);
      var outcome := GetTaskResult(rec);
      if outcome.Some? then Settle(c2, ref, outcome.value) else c2
    else c1
  }

  /** `_addObject(type, ref, object)`, with the id index kept consistent. */
  function AddObject(c: Cache, kind: string, ref: string, snap: Snapshot): (d: Cache)
    requires WatchersOk(c)
    ensures WatchersOk(d)
  {
    var rec := WrapRecord(kind, ref, snap);
    Store(c, kind, ref, rec, DropPreviousId(c, ref, rec))
  }

  /** `_addObject` exactly as the source writes it. */
  function AddObjectAsWritten(c: Cache, kind: string, ref: string, snap: Snapshot): (d: Cache)
    requires WatchersOk(c)
    ensures WatchersOk(d)
  {
    var rec := WrapRecord(kind, ref, snap);
    Store(c, kind, ref, rec, DropPreviousUuid(c, ref, rec))
  }

  /** `_removeObject(type, ref)`: forget the record and reject its
      watcher, whether or not the record was cached. */
  function RemoveObject(c: Cache, kind: string, ref: string): (d: Cache)
    requires WatchersOk(c)
    ensures WatchersOk(d)
  {
    var c1 :=
      if ref in c.byRef then
        c.(objects := c.objects - {c.byRef[ref].id},
           byRef := c.byRef - {ref},
           nTasks := if kind == "task" then c.nTasks - 1 else c.nTasks)
      else c;
    var task := if ref in c.byRef then Some(c.byRef[ref]) else None;
    Settle(c1, ref, Rejected(Destroyed("task has been destroyed before completion", task, ref)))
  }

  /** On `EVENTS_LOST` and on disconnection the id index is emptied; the
      by-reference index is kept. */
  function ClearIndex(c: Cache): (d: Cache)
    ensures d.objects == map[] && d == c.(objects := map[])
  {
    c.(objects := map[])
  }

  // ----- properties of one step

  lemma {:induction false} AddObjectInv(c: Cache, kind: string, ref: string, snap: Snapshot)
    requires Inv(c)
    ensures Inv(AddObject(c, kind, ref, snap))
  {
    var rec := WrapRecord(kind, ref, snap);
    var objs := DropPreviousId(c, ref, rec);
    var d := AddObject(c, kind, ref, snap);
    assert d.objects == objs[rec.id := rec] && d.byRef == c.byRef[ref := rec];
    forall id | id in d.objects
      ensures d.objects[id].id == id && d.objects[id].ref in d.byRef && d.byRef[d.objects[id].ref] == d.objects[id]
    {
      if id != rec.id {
        assert id in c.objects && d.objects[id] == c.objects[id];
      }
    }
  }

  lemma {:induction false} RemoveObjectInv(c: Cache, kind: string, ref: string)
    requires Inv(c)
    ensures Inv(RemoveObject(c, kind, ref))
  {
    var d := RemoveObject(c, kind, ref);
    if ref in c.byRef {
      forall id | id in d.objects
        ensures d.objects[id].id == id && d.objects[id].ref in d.byRef && d.byRef[d.objects[id].ref] == d.objects[id]
      {
        assert id in c.objects && d.objects[id] == c.objects[id];
      }
    }
  }

  lemma ClearIndexInv(c: Cache)
    requires Inv(c)
    ensures Inv(ClearIndex(c)) && TaskCount(ClearIndex(c)) == TaskCount(c)
  {
  }

  /** After an addition the record is found by its reference and by its
      `$id`. */
  lemma {:induction false} AddObjectFound(c: Cache, kind: string, ref: string, snap: Snapshot)
    requires WatchersOk(c)
    ensures AddObject(c, kind, ref, snap).byRef[ref] == WrapRecord(kind, ref, snap)
    ensures AddObject(c, kind, ref, snap).objects[WrapRecord(kind, ref, snap).id] == WrapRecord(kind, ref, snap)
    ensures forall r :: r != ref && r in c.byRef ==>
      r in AddObject(c, kind, ref, snap).byRef && AddObject(c, kind, ref, snap).byRef[r] == c.byRef[r]
  {
    var rec := WrapRecord(kind, ref, snap);
    var d := Store(c, kind, ref, rec, DropPreviousId(c, ref, rec));
    assert d.byRef == c.byRef[ref := rec];
  }

  /** Receiving the same snapshot twice is receiving it once. */
  lemma {:induction false} AddObjectIdempotent(c: Cache, kind: string, ref: string, snap: Snapshot)
    requires WatchersOk(c)
    ensures AddObject(AddObject(c, kind, ref, snap), kind, ref, snap) == AddObject(c, kind, ref, snap)
  {
    var rec := WrapRecord(kind, ref, snap);
    var d := AddObject(c, kind, ref, snap);
    assert d.byRef == c.byRef[ref := rec];
    assert DropPreviousId(d, ref, rec) == d.objects;
    assert d.objects[rec.id] == rec;
    assert d.objects[rec.id := rec] == d.objects;
    assert d.byRef[ref := rec] == d.byRef;
    if kind == "pool" {
    } else if kind == "task" {
      if GetTaskResult(rec).Some? {
        assert ref !in d.watchers;
      }
    }
  }

  /** Deleting what was just added leaves neither index holding it. */
  lemma {:induction false} AddThenRemove(c: Cache, kind: string, ref: string, snap: Snapshot)
    requires WatchersOk(c)
    ensures ref !in RemoveObject(AddObject(c, kind, ref, snap), kind, ref).byRef
    ensures WrapRecord(kind, ref, snap).id !in RemoveObject(AddObject(c, kind, ref, snap), kind, ref).objects
  {
    var rec := WrapRecord(kind, ref, snap);
    var d := AddObject(c, kind, ref, snap);
    assert d.byRef == c.byRef[ref := rec];
    assert ref in d.byRef && d.byRef[ref] == rec;
  }

  /** A watched task settles as soon as a terminal snapshot of it arrives. */
  lemma {:induction false} AddSettlesWatcher(c: Cache, ref: string, snap: Snapshot)
    requires WatchersOk(c) && ref in c.watchers && IsTerminal(snap.status)
    ensures ref !in AddObject(c, "task", ref, snap).watchers
    ensures AddObject(c, "task", ref, snap).promises[c.watchers[ref]] ==
      Settled(GetTaskResult(WrapRecord("task", ref, snap)).value)
  {
    var rec := WrapRecord("task", ref, snap);
    assert GetTaskResult(rec).Some?;
  }

  /** A watched task that disappears rejects its watcher. */
  lemma {:induction false} RemoveRejectsWatcher(c: Cache, kind: string, ref: string)
    requires WatchersOk(c) && ref in c.watchers
    ensures ref !in RemoveObject(c, kind, ref).watchers
    ensures RemoveObject(c, kind, ref).promises[c.watchers[ref]] ==
      Settled(Rejected(Destroyed("task has been destroyed before completion",
        if ref in c.byRef then Some(c.byRef[ref]) else None, ref)))
  {
  }

  // ----- the task counter

  lemma {:induction false} TaskRefsStore(m: map<string, Record>, ref: string, rec: Record)
    requires rec.kind == "task"
    ensures ref in m && m[ref].kind == "task" ==> TaskRefs(m[ref := rec]) == TaskRefs(m)
    ensures ref !in m ==> TaskRefs(m[ref := rec]) == TaskRefs(m) + {ref} && ref !in TaskRefs(m)
  {
  }

  lemma {:induction false} TaskRefsStoreOther(m: map<string, Record>, ref: string, rec: Record)
    requires rec.kind != "task" && (ref in m ==> m[ref].kind == rec.kind)
    ensures TaskRefs(m[ref := rec]) == TaskRefs(m)
  {
  }

  lemma {:induction false} TaskRefsRemove(m: map<string, Record>, ref: string)
    requires ref in m
    ensures m[ref].kind == "task" ==> TaskRefs(m - {ref}) == TaskRefs(m) - {ref} && ref in TaskRefs(m)
    ensures m[ref].kind != "task" ==> TaskRefs(m - {ref}) == TaskRefs(m)
  {
  }

  /** The counter stays exact across an addition, as long as the
      reference keeps its class. */
  lemma {:induction false} AddObjectTaskCount(c: Cache, kind: string, ref: string, snap: Snapshot)
    requires WatchersOk(c) && TaskCount(c) && SameClass(c, kind, ref)
    ensures TaskCount(AddObject(c, kind, ref, snap))
  {
    var rec := WrapRecord(kind, ref, snap);
    var d := AddObject(c, kind, ref, snap);
    assert d.byRef == c.byRef[ref := rec];
    if kind == "task" {
      TaskRefsStore(c.byRef, ref, rec);
    } else {
      TaskRefsStoreOther(c.byRef, ref, rec);
    }
  }

  /** The counter stays exact across a deletion, as long as the event names
      the record's class. */
  lemma {:induction false} RemoveObjectTaskCount(c: Cache, kind: string, ref: string)
    requires WatchersOk(c) && TaskCount(c) && SameClass(c, kind, ref)
    ensures TaskCount(RemoveObject(c, kind, ref))
  {
    var d := RemoveObject(c, kind, ref);
    if ref in c.byRef {
      assert d.byRef == c.byRef - {ref};
      TaskRefsRemove(c.byRef, ref);
    }
  }

  // ===================================================================
  // Batches of events: `_processEvents`

  /** An event of `event.from`: `class`, `ref`, `operation` and the
      record's snapshot. */
  datatype Event = Event(operation: string, objClass: string, ref: string, snapshot: Snapshot)

  function ApplyEvent(c: Cache, e: Event): (d: Cache)
    requires WatchersOk(c)
    ensures WatchersOk(d)
  {
    if e.operation == "del" then RemoveObject(c, e.objClass, e.ref)
    else AddObject(c, e.objClass, e.ref, e.snapshot)
  }

  /** The events applied in order. */
  function ProcessEvents(c: Cache, events: seq<Event>): (d: Cache)
    requires WatchersOk(c)
    ensures WatchersOk(d)
    decreases |events|
  {
    if events == [] then c
    else ApplyEvent(ProcessEvents(c, events[..|events| - 1]), events[|events| - 1])
  }

  lemma {:induction false} ProcessEventsInv(c: Cache, events: seq<Event>)
    requires Inv(c)
    ensures Inv(ProcessEvents(c, events))
    decreases |events|
  {
    if events != [] {
      var prefix := events[..|events| - 1];
      var e := events[|events| - 1];
      ProcessEventsInv(c, prefix);
      if e.operation == "del" {
        RemoveObjectInv(ProcessEvents(c, prefix), e.objClass, e.ref);
      } else {
        AddObjectInv(ProcessEvents(c, prefix), e.objClass, e.ref, e.snapshot);
      }
    }
  }

  /** The events of a batch keep each reference's class. */
  predicate ClassStable(c: Cache, events: seq<Event>)
    requires WatchersOk(c)
    decreases |events|
  {
    events == [] ||
    (ClassStable(c, events[..|events| - 1]) &&
     SameClass(ProcessEvents(c, events[..|events| - 1]), events[|events| - 1].objClass, events[|events| - 1].ref))
  }

  lemma {:induction false} ProcessEventsTaskCount(c: Cache, events: seq<Event>)
    requires WatchersOk(c) && TaskCount(c) && ClassStable(c, events)
    ensures TaskCount(ProcessEvents(c, events))
    decreases |events|
  {
    if events != [] {
      var prefix := events[..|events| - 1];
      var e := events[|events| - 1];
      ProcessEventsTaskCount(c, prefix);
      if e.operation == "del" {
        RemoveObjectTaskCount(ProcessEvents(c, prefix), e.objClass, e.ref);
      } else {
        AddObjectTaskCount(ProcessEvents(c, prefix), e.objClass, e.ref, e.snapshot);
      }
    }
  }

  // ===================================================================
  // Task reconciliation, when the server's task count differs from ours

  /** The records of `task.get_all_records`, in the order they come. */
  function FetchedRefs(fetched: seq<(string, Snapshot)>): (s: set<string>)
    ensures forall i :: 0 <= i < |fetched| ==> fetched[i].0 in s
    ensures forall r :: r in s ==> exists i :: 0 <= i < |fetched| && fetched[i].0 == r
  {
    set i | 0 <= i < |fetched| :: fetched[i].0
  }

  lemma FetchedRefsSnoc(fetched: seq<(string, Snapshot)>)
    requires fetched != []
    ensures FetchedRefs(fetched) == FetchedRefs(fetched[..|fetched| - 1]) + {fetched[|fetched| - 1].0}
  {
    var prefix := fetched[..|fetched| - 1];
    forall r | r in FetchedRefs(fetched) ensures r in FetchedRefs(prefix) + {fetched[|fetched| - 1].0} {
      var i :| 0 <= i < |fetched| && fetched[i].0 == r;
      if i < |fetched| - 1 {
        assert prefix[i] == fetched[i];
      }
    }
    forall r | r in FetchedRefs(prefix) ensures r in FetchedRefs(fetched) {
      var i :| 0 <= i < |prefix| && prefix[i].0 == r;
      assert fetched[i] == prefix[i];
    }
  }

  function AddTasks(c: Cache, fetched: seq<(string, Snapshot)>): (d: Cache)
    requires WatchersOk(c)
    ensures WatchersOk(d)
    decreases |fetched|
  {
    if fetched == [] then c
    else AddObject(AddTasks(c, fetched[..|fetched| - 1]), "task", fetched[|fetched| - 1].0, fetched[|fetched| - 1].1)
  }

  function RemoveTasks(c: Cache, refs: seq<string>): (d: Cache)
    requires WatchersOk(c)
    ensures WatchersOk(d)
    decreases |refs|
  {
    if refs == [] then c
    else RemoveObject(RemoveTasks(c, refs[..|refs| - 1]), "task", refs[|refs| - 1])
  }

  /** The tasks that the source's reconciliation may remove: those it finds
      in the id index. */
  function IndexedTaskRefs(c: Cache): set<string> {
    set id | id in c.objects && c.objects[id].kind == "task" :: c.objects[id].ref
  }

  /** `toRemove` enumerated in some order (a `Set` keeps the order in
      which the tasks were found). */
  predicate Enumerates(order: seq<string>, s: set<string>) {
    (forall i :: 0 <= i < |order| ==> order[i] in s) &&
    (forall r :: r in s ==> r in order) &&
    (forall i, j :: 0 <= i < j < |order| ==> order[i] != order[j])
  }

  /** The reconciliation as the source writes it: it collects the tasks of
      the id index, which `ClearIndex` may have emptied. */
  function ReconcileAsWritten(c: Cache, fetched: seq<(string, Snapshot)>, order: seq<string>): (d: Cache)
    requires WatchersOk(c) && Enumerates(order, IndexedTaskRefs(c) - FetchedRefs(fetched))
    ensures WatchersOk(d)
  {
    RemoveTasks(AddTasks(c, fetched), order)
  }

  /** The reconciliation with the tasks to remove collected from the
      by-reference index. */
  function Reconcile(c: Cache, fetched: seq<(string, Snapshot)>, order: seq<string>): (d: Cache)
    requires WatchersOk(c) && Enumerates(order, TaskRefs(c.byRef) - FetchedRefs(fetched))
    ensures WatchersOk(d)
  {
    RemoveTasks(AddTasks(c, fetched), order)
  }

  lemma {:induction false} AddTasksInv(c: Cache, fetched: seq<(string, Snapshot)>)
    requires Inv(c)
    ensures Inv(AddTasks(c, fetched))
    decreases |fetched|
  {
    if fetched != [] {
      AddTasksInv(c, fetched[..|fetched| - 1]);
      AddObjectInv(AddTasks(c, fetched[..|fetched| - 1]), "task", fetched[|fetched| - 1].0, fetched[|fetched| - 1].1);
    }
  }

  lemma {:induction false} RemoveTasksInv(c: Cache, refs: seq<string>)
    requires Inv(c)
    ensures Inv(RemoveTasks(c, refs))
    decreases |refs|
  {
    if refs != [] {
      RemoveTasksInv(c, refs[..|refs| - 1]);
      RemoveObjectInv(RemoveTasks(c, refs[..|refs| - 1]), "task", refs[|refs| - 1]);
    }
  }

  /** The tasks of the server are cached, and the other records stay. */
  lemma {:induction false} AddTasksEffect(c: Cache, fetched: seq<(string, Snapshot)>)
    requires WatchersOk(c)
    ensures TaskRefs(AddTasks(c, fetched).byRef) >= FetchedRefs(fetched)
    ensures forall r :: r in AddTasks(c, fetched).byRef <==> r in c.byRef || r in FetchedRefs(fetched)
    ensures forall r :: r in c.byRef && r !in FetchedRefs(fetched) ==> AddTasks(c, fetched).byRef[r] == c.byRef[r]
    ensures forall r :: r in FetchedRefs(fetched) ==> AddTasks(c, fetched).byRef[r].kind == "task"
    decreases |fetched|
  {
    if fetched != [] {
      var prefix := fetched[..|fetched| - 1];
      var last := fetched[|fetched| - 1];
      AddTasksEffect(c, prefix);
      AddObjectFound(AddTasks(c, prefix), "task", last.0, last.1);
      FetchedRefsSnoc(fetched);
    }
  }

  /** Removing tasks drops exactly those references. */
  lemma {:induction false} RemoveTasksEffect(c: Cache, refs: seq<string>)
    requires WatchersOk(c)
    ensures forall r :: r in RemoveTasks(c, refs).byRef <==> r in c.byRef && r !in refs
    ensures forall r :: r in RemoveTasks(c, refs).byRef ==> RemoveTasks(c, refs).byRef[r] == c.byRef[r]
    decreases |refs|
  {
    if refs != [] {
      RemoveTasksEffect(c, refs[..|refs| - 1]);
      assert forall r :: r in refs <==> r in refs[..|refs| - 1] || r == refs[|refs| - 1];
    }
  }

  /** After the corrected reconciliation the cached tasks are exactly the
      server's tasks, the other records are untouched, and (when the
      counter was exact and the fetched references were tasks or new)
      the counter equals the server's count. */
  lemma {:induction false} ReconcileCorrect(c: Cache, fetched: seq<(string, Snapshot)>, order: seq<string>)
    requires WatchersOk(c) && Enumerates(order, TaskRefs(c.byRef) - FetchedRefs(fetched))
    ensures TaskRefs(Reconcile(c, fetched, order).byRef) == FetchedRefs(fetched)
    ensures forall r :: r in c.byRef && c.byRef[r].kind != "task" && r !in FetchedRefs(fetched) ==>
      r in Reconcile(c, fetched, order).byRef && Reconcile(c, fetched, order).byRef[r] == c.byRef[r]
  {
    var a := AddTasks(c, fetched);
    AddTasksEffect(c, fetched);
    RemoveTasksEffect(a, order);
    var d := Reconcile(c, fetched, order);
    forall r | r in TaskRefs(d.byRef) ensures r in FetchedRefs(fetched) {
      assert r in a.byRef && r !in order && a.byRef[r] == d.byRef[r];
    }
    forall r | r in FetchedRefs(fetched) ensures r in TaskRefs(d.byRef) {
      assert r !in order;
    }
  }

  // ----- the counter after reconciliation

  lemma {:induction false} AddTasksTaskCount(c: Cache, fetched: seq<(string, Snapshot)>)
    requires WatchersOk(c) && TaskCount(c)
    requires forall i :: 0 <= i < |fetched| ==> SameClass(c, "task", fetched[i].0)
    ensures TaskCount(AddTasks(c, fetched))
    decreases |fetched|
  {
    if fetched != [] {
      var prefix := fetched[..|fetched| - 1];
      var last := fetched[|fetched| - 1];
      AddTasksTaskCount(c, prefix);
      AddTasksEffect(c, prefix);
      var a := AddTasks(c, prefix);
      if last.0 in a.byRef && last.0 !in FetchedRefs(prefix) {
        assert a.byRef[last.0] == c.byRef[last.0];
      }
      AddObjectTaskCount(a, "task", last.0, last.1);
    }
  }

  lemma {:induction false} RemoveTasksTaskCount(c: Cache, refs: seq<string>)
    requires WatchersOk(c) && TaskCount(c)
    requires forall i :: 0 <= i < |refs| ==> refs[i] in c.byRef ==> c.byRef[refs[i]].kind == "task"
    ensures TaskCount(RemoveTasks(c, refs))
    decreases |refs|
  {
    if refs != [] {
      var prefix := refs[..|refs| - 1];
      var last := refs[|refs| - 1];
      RemoveTasksTaskCount(c, prefix);
      RemoveTasksEffect(c, prefix);
      RemoveObjectTaskCount(RemoveTasks(c, prefix), "task", last);
    }
  }

  /** The corrected reconciliation makes the counter equal to the server's
      count, so the next batch does not reconcile again. */
  lemma ReconcileCount(c: Cache, fetched: seq<(string, Snapshot)>, order: seq<string>)
    requires WatchersOk(c) && TaskCount(c) && Enumerates(order, TaskRefs(c.byRef) - FetchedRefs(fetched))
    requires forall i :: 0 <= i < |fetched| ==> SameClass(c, "task", fetched[i].0)
    ensures Reconcile(c, fetched, order).nTasks == |FetchedRefs(fetched)|
  {
    var a := AddTasks(c, fetched);
    AddTasksTaskCount(c, fetched);
    AddTasksEffect(c, fetched);
    forall i | 0 <= i < |order| && order[i] in a.byRef ensures a.byRef[order[i]].kind == "task" {
      assert order[i] in TaskRefs(c.byRef) && order[i] !in FetchedRefs(fetched);
    }
    RemoveTasksTaskCount(a, order);
    ReconcileCorrect(c, fetched, order);
  }

  /** As written, a task that vanished while events were lost is never
      removed: the id index was emptied, so the reconciliation does not
      see it, and the counter stays above the server's count. */
  lemma ReconcileAsWrittenKeepsStaleTask()
    ensures var snap := Snapshot("T", "pending", Undefined, [], []);
      var c := ClearIndex(AddObject(EmptyCache(), "task", "OpaqueRef:t", snap));
      && Inv(c) && TaskCount(c)
      && Enumerates([], IndexedTaskRefs(c) - FetchedRefs([]))
      && "OpaqueRef:t" in ReconcileAsWritten(c, [], []).byRef
      && ReconcileAsWritten(c, [], []).nTasks == 1 != |FetchedRefs([])|
  {
    var snap := Snapshot("T", "pending", Undefined, [], []);
    var c0 := AddObject(EmptyCache(), "task", "OpaqueRef:t", snap);
    AddObjectInv(EmptyCache(), "task", "OpaqueRef:t", snap);
    AddObjectTaskCount(EmptyCache(), "task", "OpaqueRef:t", snap);
    assert c0.byRef == map["OpaqueRef:t" := WrapRecord("task", "OpaqueRef:t", snap)];
    assert FetchedRefs([]) == {};
  }

  /** As written, a record whose UUID appears leaves its old entry,
      filed under its reference, in the id index. */
  lemma AddObjectAsWrittenStale()
    ensures var c := AddObject(EmptyCache(), "VM", "OpaqueRef:v", Snapshot("", "", Undefined, [], []));
      && Inv(c)
      && !NoStale(AddObjectAsWritten(c, "VM", "OpaqueRef:v", Snapshot("U", "", Undefined, [], [])))
      && "OpaqueRef:v" in AddObjectAsWritten(c, "VM", "OpaqueRef:v", Snapshot("U", "", Undefined, [], [])).objects
  {
    var s0 := Snapshot("", "", Undefined, [], []);
    var s1 := Snapshot("U", "", Undefined, [], []);
    var c := AddObject(EmptyCache(), "VM", "OpaqueRef:v", s0);
    AddObjectInv(EmptyCache(), "VM", "OpaqueRef:v", s0);
    var r0 := WrapRecord("VM", "OpaqueRef:v", s0);
    assert c.objects == map["OpaqueRef:v" := r0] && c.byRef == map["OpaqueRef:v" := r0];
    var d := AddObjectAsWritten(c, "VM", "OpaqueRef:v", s1);
    var r1 := WrapRecord("VM", "OpaqueRef:v", s1);
    assert d.objects == map["OpaqueRef:v" := r0, "U" := r1];
    assert d.byRef["OpaqueRef:v"] == r1 != r0;
    assert d.objects["OpaqueRef:v"] == r0 && r0.ref == "OpaqueRef:v";
  }

  // ===================================================================
  // Lookups

  /** What a `getObject*` call returns: the record, or the caller's
      default when one was given. */
  datatype Answer = Found(record: Record) | Default(value: Value)

  /** The argument of `getObject`: a string, or a record (its `$id`). */
  datatype ObjectKey = Name(name: string) | Of(record: Record)

  function KeyName(key: ObjectKey): string {
    match key
    case Name(n) => n
    case Of(rec) => rec.id
  }

  /** `getObject(idOrUuidOrRef[, defaultValue])`: the id index first, then
      the by-reference index. */
  function GetObject(c: Cache, key: ObjectKey, default: Option<Value>): (r: Result<Answer, string>)
    ensures KeyName(key) in c.objects ==> r == Ok(Found(c.objects[KeyName(key)]))
    ensures KeyName(key) !in c.objects && KeyName(key) in c.byRef ==> r == Ok(Found(c.byRef[KeyName(key)]))
    ensures KeyName(key) !in c.objects && KeyName(key) !in c.byRef ==>
      r == if default.Some? then Ok(Default(default.value))
           else Err("no object with UUID or opaque ref: " + KeyName(key))
  {
    var name := KeyName(key);
    if name in c.objects then Ok(Found(c.objects[name]))
    else if name in c.byRef then Ok(Found(c.byRef[name]))
    else if default.Some? then Ok(Default(default.value))
    else Err("no object with UUID or opaque ref: " + name)
  }

  /** `getObjectByRef(ref[, defaultValue])`. */
  function GetObjectByRef(c: Cache, ref: string, default: Option<Value>): (r: Result<Answer, string>)
    ensures ref in c.byRef <==> r.Ok? && r.value.Found?
    ensures r.Ok? && r.value.Found? ==> r.value.record == c.byRef[ref]
    ensures ref !in c.byRef && default.None? ==> r == Err("no object with opaque ref: " + ref)
  {
    if ref in c.byRef then Ok(Found(c.byRef[ref]))
    else if default.Some? then Ok(Default(default.value))
    else Err("no object with opaque ref: " + ref)
  }

  /** `getObjectByUuid(uuid[, defaultValue])`: the id index only. */
  function GetObjectByUuid(c: Cache, uuid: string, default: Option<Value>): (r: Result<Answer, string>)
    ensures uuid in c.objects <==> r.Ok? && r.value.Found?
    ensures r.Ok? && r.value.Found? ==> r.value.record == c.objects[uuid]
    ensures uuid !in c.objects && default.None? ==> r == Err("no object with UUID: " + uuid)
  {
    if uuid in c.objects then Ok(Found(c.objects[uuid]))
    else if default.Some? then Ok(Default(default.value))
    else Err("no object with UUID: " + uuid)
  }

  /** Whatever key finds a record, the record is current: under the cache
      invariant, the id index never returns an outdated version. */
  lemma GetObjectCurrent(c: Cache, key: ObjectKey, default: Option<Value>)
    requires Inv(c)
    ensures GetObject(c, key, default).Ok? && GetObject(c, key, default).value.Found? ==>
      var rec := GetObject(c, key, default).value.record;
      rec.ref in c.byRef && c.byRef[rec.ref] == rec
  {
  }

  /** A record with a UUID is found by it once added; found by reference
      in every case. */
  lemma {:induction false} FindAdded(c: Cache, kind: string, ref: string, snap: Snapshot)
    requires WatchersOk(c)
    ensures snap.uuid != "" ==>
      GetObjectByUuid(AddObject(c, kind, ref, snap), snap.uuid, None) == Ok(Found(WrapRecord(kind, ref, snap)))
    ensures GetObjectByRef(AddObject(c, kind, ref, snap), ref, None) == Ok(Found(WrapRecord(kind, ref, snap)))
    ensures GetObject(AddObject(c, kind, ref, snap), Of(WrapRecord(kind, ref, snap)), None) ==
      Ok(Found(WrapRecord(kind, ref, snap)))
  {
    AddObjectFound(c, kind, ref, snap);
  }
}
