/** Consolidation of backup logs (packages/xo-server/src/xo-mixins/backups-ng-logs.js):
    the status of a run derived from its error and the statuses of its
    children, the time order of the children, and the fold over the log
    records that builds the tree of job runs, tasks and job calls.

    The log objects the source builds are shared: the same object is in
    `consolidated`, in `started` and in its parent's `tasks`, and is
    updated through any of them. Here they live in an arena, a sequence of
    entries indexed by creation order, and the dictionaries and the
    `tasks` arrays hold indices into it. */
module BackupNgLogs {
  import opened Wrappers
  import opened JsValues

  // ===================================================================
  // Statuses

  /** `isSkippedError(error)`: reading `error.message` throws on null and
      undefined. `isNoSuchObject` is `noSuchObject.is`, which is not part
      of this model. */
  function IsSkippedError(error: Value, isNoSuchObject: Value -> bool): (r: Result<bool, string>)
    ensures r.Err? <==> IsNullish(error)
    ensures r.Ok? ==> (r.value <==>
      Get(error, "message") in {Str("no disks found"), Str("no VMs match this pattern"), Str("unhealthy VDI chain")}
      || isNoSuchObject(error))
  {
    var message :- GetProp(error, "message");
    Ok(message == Str("no disks found") || isNoSuchObject(error)
       || message == Str("no VMs match this pattern") || message == Str("unhealthy VDI chain"))
  }

  /** `getStatus(error, status)`: `status` is `Undefined` when the caller
      passes none. */
  function GetStatus(error: Value, status: Value, isNoSuchObject: Value -> bool): (r: Result<Value, string>)
    ensures status.Undefined? && error.Undefined? ==> r == Ok(Str("success"))
    ensures status.Undefined? && !error.Undefined? ==>
      (r.Ok? <==> !error.Null?)
      && (r.Ok? ==> r.value in {Str("failure"), Str("skipped")})
    ensures !status.Undefined? && status != Str("failure") ==> r == Ok(status)
    ensures r.Ok? && r.value == Str("skipped") ==> status in {Undefined, Str("failure"), Str("skipped")}
    ensures r.Ok? && r.value == Str("skipped") && status != Str("skipped") ==>
      IsSkippedError(error, isNoSuchObject) == Ok(true)
  {
    var st := if status.Undefined? then (if error.Undefined? then Str("success") else Str("failure")) else status;
    if st == Str("failure") then
      var skipped :- IsSkippedError(error, isNoSuchObject);
      Ok(if skipped then Str("skipped") else st)
    else Ok(st)
  }

  // ===================================================================
  // Log entries

  datatype Warning = Warning(data: Value, message: Value)

  /** What distinguishes the three kinds of log object. */
  datatype EntryInfo =
    | JobInfo(jobId: Value, jobName: Value, scheduleId: Value)
    | TaskInfo(message: Value)
    | CallInfo

  /** A log object; `None` is a property that was never set. `tasks` are
      indices of other entries. */
  datatype Entry = Entry(
    id: string,
    data: Value,
    start: int,
    status: Value,
    info: EntryInfo,
    end: Option<int>,
    result: Option<Value>,
    tasks: Option<seq<nat>>,
    warnings: Option<seq<Warning>>)

  function NewEntry(id: string, data: Value, start: int, status: Value, info: EntryInfo): Entry {
    Entry(id, data, start, status, info, None, None, None, None)
  }

  // ===================================================================
  // The time order of the children of a run

  /** `taskTimeComparator`: finished entries first, by end time, then the
      unfinished ones by start time. */
  function TimeCompare(a: Entry, b: Entry): int {
    if a.end.Some? then
      if b.end.Some? then a.end.value - b.end.value else -1
    else if b.end.None? then a.start - b.start
    else 1
  }

  lemma TimeCompareAntisymmetric(a: Entry, b: Entry)
    ensures TimeCompare(a, b) < 0 <==> TimeCompare(b, a) > 0
    ensures TimeCompare(a, b) == 0 <==> TimeCompare(b, a) == 0
  {
  }

  lemma TimeCompareTransitive(a: Entry, b: Entry, c: Entry)
    requires TimeCompare(a, b) <= 0 && TimeCompare(b, c) <= 0
    ensures TimeCompare(a, c) <= 0
  {
  }

  /** A finished entry comes before an unfinished one, whatever the times. */
  lemma FinishedFirst(a: Entry, b: Entry)
    requires a.end.Some? && b.end.None?
    ensures TimeCompare(a, b) < 0 && TimeCompare(b, a) > 0
  {
  }

  predicate IndicesIn(ts: seq<nat>, es: seq<Entry>) {
    forall j :: 0 <= j < |ts| ==> ts[j] < |es|
  }

  predicate SortedByTime(ts: seq<nat>, es: seq<Entry>)
    requires IndicesIn(ts, es)
  {
    forall j, l :: 0 <= j < l < |ts| ==> TimeCompare(es[ts[j]], es[ts[l]]) <= 0
  }

  /** Inserts `x` after the entries that do not come after it. */
  function Insert(x: nat, ts: seq<nat>, es: seq<Entry>): (r: seq<nat>)
    requires x < |es| && IndicesIn(ts, es)
    ensures IndicesIn(r, es)
    ensures multiset(r) == multiset(ts) + multiset{x}
  {
    if ts == [] then [x]
    else if TimeCompare(es[x], es[ts[0]]) < 0 then [x] + ts
    else
      var rest := Insert(x, ts[1..], es);
      assert ts == [ts[0]] + ts[1..];
      [ts[0]] + rest
  }

  /** Inserting into a sorted sequence keeps it sorted. */
  lemma {:induction false} InsertSorted(x: nat, ts: seq<nat>, es: seq<Entry>)
    requires x < |es| && IndicesIn(ts, es)
    requires SortedByTime(ts, es)
    ensures SortedByTime(Insert(x, ts, es), es)
  {
    if ts == [] {
    } else if TimeCompare(es[x], es[ts[0]]) < 0 {
      forall l | 0 <= l < |ts| ensures TimeCompare(es[x], es[ts[l]]) <= 0 {
        if l > 0 {
          TimeCompareTransitive(es[x], es[ts[0]], es[ts[l]]);
        }
      }
    } else {
      var rest := Insert(x, ts[1..], es);
      assert ts == [ts[0]] + ts[1..];
      assert TimeCompare(es[ts[0]], es[x]) <= 0 by {
        TimeCompareAntisymmetric(es[x], es[ts[0]]);
      }
      InsertSorted(x, ts[1..], es);
      forall j | 0 <= j < |rest| ensures TimeCompare(es[ts[0]], es[rest[j]]) <= 0 {
        assert rest[j] in multiset(rest);
        assert rest[j] in multiset(ts[1..]) + multiset{x};
        if rest[j] != x {
          assert rest[j] in ts[1..];
        }
      }
    }
  }

  /** `tasks.sort(taskTimeComparator)`, modelled as an insertion sort;
      how entries with equal times end up ordered is not promised. */
  function SortByTime(ts: seq<nat>, es: seq<Entry>): (r: seq<nat>)
    requires IndicesIn(ts, es)
    ensures IndicesIn(r, es)
    ensures multiset(r) == multiset(ts)
    ensures SortedByTime(r, es)
  {
    if ts == [] then []
    else
      var last := |ts| - 1;
      assert ts == ts[..last] + [ts[last]];
      InsertSorted(ts[last], SortByTime(ts[..last], es), es);
      Insert(ts[last], SortByTime(ts[..last], es), es)
  }

  /** Sorting moves indices around and invents none. */
  lemma SortKeepsBounds(ts: seq<nat>, es: seq<Entry>, p: nat)
    requires forall j :: 0 <= j < |ts| ==> p < ts[j] < |es|
    ensures forall j :: 0 <= j < |SortByTime(ts, es)| ==> p < SortByTime(ts, es)[j] < |es|
  {
    var r := SortByTime(ts, es);
    forall j | 0 <= j < |r| ensures p < r[j] < |es| {
      assert r[j] in multiset(ts);
    }
  }

  // ===================================================================
  // The status of a finished entry

  function ChildStatuses(ts: seq<nat>, es: seq<Entry>): (ss: seq<Value>)
    requires IndicesIn(ts, es)
    ensures |ss| == |ts|
    ensures forall j :: 0 <= j < |ts| ==> ss[j] == es[ts[j]].status
  {
    seq(|ts|, j requires 0 <= j < |ts| => es[ts[j]].status)
  }

  /** The status `computeStatusAndSortTasks` returns, stated without its
      loop: a failure stays one, and otherwise a failed child makes a
      failure and a skipped child a skip. */
  function StatusAfter(status: Value, children: Option<seq<Value>>): Value {
    if status == Str("failure") || children.None? then status
    else if Str("failure") in children.value then Str("failure")
    else if Str("skipped") in children.value then Str("skipped")
    else status
  }

  /** Whether `computeStatusAndSortTasks` reaches its sort. */
  predicate SortsTasks(status: Value, children: Option<seq<Value>>) {
    status != Str("failure") && children.Some? && Str("failure") !in children.value
  }

  lemma StatusAfterCases(status: Value, children: Option<seq<Value>>)
    ensures status == Str("failure") ==> StatusAfter(status, children) == status
    ensures children == None || children == Some([]) ==> StatusAfter(status, children) == status
    ensures children.Some? && Str("failure") in children.value ==> StatusAfter(status, children) == Str("failure")
    ensures StatusAfter(status, children) in {status, Str("failure"), Str("skipped")}
    ensures !SortsTasks(status, children) ==> StatusAfter(status, children) == Str("failure") || children.None?
  {
  }

  // ===================================================================
  // The fold over the log records

  /** A log record: `{ data, time, message }`. */
  datatype LogRecord = LogRecord(data: Value, time: int, message: Value)

  /** What the fold reads besides the records: the `runId` argument, and
      `runningJobs` (job id to run id) and `runningRestores` of the
      application. */
  datatype Config = Config(
    runId: Option<string>,
    runningJobs: map<string, string>,
    runningRestores: set<string>,
    isNoSuchObject: Value -> bool)

  /** `consolidated` and `started` map ids to entries of the arena. */
  datatype State = State(entries: seq<Entry>, consolidated: map<string, nat>, started: map<string, nat>)

  function EmptyState(): State {
    State([], map[], map[])
  }

  /** Every index points into the arena, and the children of an entry were
      created after it. */
  predicate Wf(st: State) {
    (forall k :: k in st.consolidated ==> st.consolidated[k] < |st.entries|)
    && (forall k :: k in st.started ==> st.started[k] < |st.entries|)
    && (forall p :: 0 <= p < |st.entries| && st.entries[p].tasks.Some? ==>
          forall j :: 0 <= j < |st.entries[p].tasks.value| ==>
            p < st.entries[p].tasks.value[j] < |st.entries|)
  }

  /** The entry `started[key]`, if any. A key whose conversion to a
      property name is not modelled finds nothing. */
  function StartedIndex(st: State, key: Value): (r: Option<nat>)
    requires Wf(st)
    ensures r.Some? ==> r.value < |st.entries|
  {
    var k := PropertyKey(key);
    if k.Some? && k.value in st.started then Some(st.started[k.value]) else None
  }

  predicate RunSelected(cfg: Config, id: string) {
    cfg.runId.None? || cfg.runId.value == id
  }

  /** A new entry at the end of the arena. */
  function Append(st: State, e: Entry): State {
    st.(entries := st.entries + [e])
  }

  /** `job.start`. */
  function JobStart(cfg: Config, st: State, id: string, rec: LogRecord): (r: State)
    requires Wf(st)
    ensures Wf(r)
  {
    var data := rec.data;
    if (Get(data, "type") == Str("backup") || Get(data, "key").Undefined?) && RunSelected(cfg, id) then
      var jobId := Get(data, "jobId");
      var key := PropertyKey(jobId);
      var running := key.Some? && key.value in cfg.runningJobs && cfg.runningJobs[key.value] == id;
      var e := NewEntry(id, Get(data, "data"), rec.time, if running then Str("pending") else Str("interrupted"),
                        JobInfo(jobId, Get(data, "jobName"), Get(data, "scheduleId")));
      var n := |st.entries|;
      State(st.entries + [e], st.consolidated[id := n], st.started[id := n])
    else st
  }

  /** `job.end`, `task.end` and `jobCall.end`: the entry `started[key]`
      leaves `started`, gets its end time, its result and its final status,
      and its children are sorted when the status computation reaches the
      sort. */
  function EndEntry(cfg: Config, st: State, key: Value, time: int, result: Value, status: Value): (r: Result<State, string>)
    requires Wf(st)
    ensures r.Ok? ==> Wf(r.value)
  {
    var p := StartedIndex(st, key);
    if p.None? then Ok(st)
    else
      var e := st.entries[p.value];
      var s :- GetStatus(result, status, cfg.isNoSuchObject);
      var children := if e.tasks.Some? then Some(ChildStatuses(e.tasks.value, st.entries)) else None;
      var tasks := if SortsTasks(s, children) then Some(SortByTime(e.tasks.value, st.entries)) else e.tasks;
      assert tasks.Some? ==> forall j :: 0 <= j < |tasks.value| ==> p.value < tasks.value[j] < |st.entries| by {
        if SortsTasks(s, children) {
          SortKeepsBounds(e.tasks.value, st.entries, p.value);
        }
      }
      var e' := e.(end := Some(time), result := Some(result), status := StatusAfter(s, children), tasks := tasks);
      Ok(State(st.entries[p.value := e'], st.consolidated, st.started - {PropertyKey(key).value}))
  }

  /** Appends `child` to the `tasks` of entry `p`. */
  function AddChild(st: State, p: nat, child: nat): (r: State)
    requires p < |st.entries|
    ensures |r.entries| == |st.entries|
  {
    var e := st.entries[p];
    st.(entries := st.entries[p := e.(tasks := Some(e.tasks.GetOr([]) + [child]))])
  }

  /** `task.start`: a top-level task of the selected run, or a sub-task
      of a started entry; a sub-task whose parent is not started is
      dropped. */
  function TaskStart(cfg: Config, st: State, id: string, rec: LogRecord): (r: State)
    requires Wf(st)
    ensures Wf(r)
  {
    var data := rec.data;
    var parentId := Get(data, "parentId");
    var n := |st.entries|;
    if parentId.Undefined? && RunSelected(cfg, id) then
      var interrupted := rec.message == Str("restore") && id !in cfg.runningRestores;
      var e := NewEntry(id, Get(data, "data"), rec.time, if interrupted then Str("interrupted") else Str("pending"),
                        TaskInfo(rec.message));
      State(st.entries + [e], st.consolidated[id := n], st.started[id := n])
    else
      var p := StartedIndex(st, parentId);
      if p.None? then st
      else
        var e := NewEntry(id, Get(data, "data"), rec.time, st.entries[p.value].status, TaskInfo(rec.message));
        var st1 := State(st.entries + [e], st.consolidated, st.started[id := n]);
        AddChild(st1, p.value, n)
  }

  /** `task.warning`: appended to the warnings of a started entry. */
  function TaskWarning(st: State, rec: LogRecord): (r: State)
    requires Wf(st)
    ensures Wf(r)
  {
    var p := StartedIndex(st, Get(rec.data, "taskId"));
    if p.None? then st
    else
      var e := st.entries[p.value];
      var w := Warning(Get(rec.data, "data"), rec.message);
      st.(entries := st.entries[p.value := e.(warnings := Some(e.warnings.GetOr([]) + [w]))])
  }

  /** `jobCall.start`: a child of a started run, on the VM `data.params.id`
      (which throws when `params` is null or undefined). */
  function JobCallStart(st: State, id: string, rec: LogRecord): (r: Result<State, string>)
    requires Wf(st)
    ensures r.Ok? ==> Wf(r.value)
  {
    var p := StartedIndex(st, Get(rec.data, "runJobId"));
    if p.None? then Ok(st)
    else
      var vm :- GetProp(Get(rec.data, "params"), "id");
      var n := |st.entries|;
      var e := NewEntry(id, Obj([Field("type", Str("VM")), Field("id", vm)]), rec.time, st.entries[p.value].status, CallInfo);
      var st1 := State(st.entries + [e], st.consolidated, st.started[id := n]);
      Ok(AddChild(st1, p.value, n))
  }

  /** `handleLog(record, id)`. Destructuring `data` throws when it is null
      or undefined; records with another event change nothing. */
  function Step(cfg: Config, st: State, id: string, rec: LogRecord): (r: Result<State, string>)
    requires Wf(st)
    ensures r.Ok? ==> Wf(r.value)
  {
    var data := rec.data;
    var event :- GetProp(data, "event");
    if event == Str("job.start") then Ok(JobStart(cfg, st, id, rec))
    else if event == Str("job.end") then EndEntry(cfg, st, Get(data, "runJobId"), rec.time, Get(data, "error"), Undefined)
    else if event == Str("task.start") then Ok(TaskStart(cfg, st, id, rec))
    else if event == Str("task.end") then EndEntry(cfg, st, Get(data, "taskId"), rec.time, Get(data, "result"), Get(data, "status"))
    else if event == Str("task.warning") then Ok(TaskWarning(st, rec))
    else if event == Str("jobCall.start") then JobCallStart(st, id, rec)
    else if event == Str("jobCall.end") then EndEntry(cfg, st, Get(data, "runCallId"), rec.time, Get(data, "error"), Undefined)
    else Ok(st)
  }

  /** `forEach(logs, handleLog)`, stopping at the first record that
      throws. */
  function Fold(cfg: Config, st: State, logs: seq<(string, LogRecord)>): (r: Result<State, string>)
    requires Wf(st)
    ensures r.Ok? ==> Wf(r.value)
  {
    if logs == [] then Ok(st)
    else
      var prev :- Fold(cfg, st, logs[..|logs| - 1]);
      Step(cfg, prev, logs[|logs| - 1].0, logs[|logs| - 1].1)
  }

  // ----- properties of one step

  /** A `job.start` record of the selected run is pending exactly when
      `runningJobs` maps its job to this run. */
  lemma JobStartStatus(cfg: Config, st: State, id: string, rec: LogRecord)
    requires Wf(st)
    requires Get(rec.data, "type") == Str("backup") || Get(rec.data, "key").Undefined?
    requires RunSelected(cfg, id)
    ensures var r := JobStart(cfg, st, id, rec);
      |r.entries| == |st.entries| + 1
      && r.consolidated == st.consolidated[id := |st.entries|]
      && r.started == st.started[id := |st.entries|]
      && (r.entries[|st.entries|].status == Str("pending") <==>
          (var key := PropertyKey(Get(rec.data, "jobId"));
           key.Some? && key.value in cfg.runningJobs && cfg.runningJobs[key.value] == id))
      && (r.entries[|st.entries|].status != Str("pending") ==> r.entries[|st.entries|].status == Str("interrupted"))
  {
  }

  /** A `job.start` record of another run, or of a job that is not a
      backup, is dropped. */
  lemma JobStartIgnored(cfg: Config, st: State, id: string, rec: LogRecord)
    requires Wf(st)
    requires !RunSelected(cfg, id) || (Get(rec.data, "type") != Str("backup") && !Get(rec.data, "key").Undefined?)
    ensures JobStart(cfg, st, id, rec) == st
  {
  }

  /** A top-level `restore` task is interrupted exactly when it is not a
      running restore; any other top-level task is pending. */
  lemma TopLevelTaskStatus(cfg: Config, st: State, id: string, rec: LogRecord)
    requires Wf(st)
    requires Get(rec.data, "parentId").Undefined? && RunSelected(cfg, id)
    ensures var r := TaskStart(cfg, st, id, rec);
      |r.entries| == |st.entries| + 1
      && id in r.consolidated && r.consolidated[id] == |st.entries|
      && (r.entries[|st.entries|].status == Str("interrupted") <==>
          rec.message == Str("restore") && id !in cfg.runningRestores)
      && (r.entries[|st.entries|].status != Str("interrupted") ==> r.entries[|st.entries|].status == Str("pending"))
      && r.entries[|st.entries|].id == id
      && r.entries[..|st.entries|] == st.entries
      && r.started == st.started[id := |st.entries|]
  {
  }

  /** A sub-task takes its parent's current status and is appended to the
      parent's children; it is not a top-level entry. */
  lemma SubTaskInherits(cfg: Config, st: State, id: string, rec: LogRecord)
    requires Wf(st)
    requires !(Get(rec.data, "parentId").Undefined? && RunSelected(cfg, id))
    requires StartedIndex(st, Get(rec.data, "parentId")).Some?
    ensures var p := StartedIndex(st, Get(rec.data, "parentId")).value;
      var r := TaskStart(cfg, st, id, rec);
      var n := |st.entries|;
      |r.entries| == n + 1
      && r.entries[n].status == st.entries[p].status
      && r.entries[n].id == id
      && r.entries[p].tasks == Some(st.entries[p].tasks.GetOr([]) + [n])
      && (forall q :: 0 <= q < n && q != p ==> r.entries[q] == st.entries[q])
      && r.started == st.started[id := n]
      && r.consolidated == st.consolidated
  {
  }

  /** A sub-task whose parent is not started changes nothing. */
  lemma SubTaskOrphan(cfg: Config, st: State, id: string, rec: LogRecord)
    requires Wf(st)
    requires !(Get(rec.data, "parentId").Undefined? && RunSelected(cfg, id))
    requires StartedIndex(st, Get(rec.data, "parentId")).None?
    ensures TaskStart(cfg, st, id, rec) == st
  {
  }

  /** A `jobCall.start` under a started run takes the run's current status,
      records the VM it is about and is appended to the run's children; it
      is not a top-level entry. Without `params` it throws. */
  lemma JobCallInherits(st: State, id: string, rec: LogRecord)
    requires Wf(st)
    requires StartedIndex(st, Get(rec.data, "runJobId")).Some?
    ensures var p := StartedIndex(st, Get(rec.data, "runJobId")).value;
      var params := Get(rec.data, "params");
      var r := JobCallStart(st, id, rec);
      var n := |st.entries|;
      (r.Err? <==> IsNullish(params))
      && (r.Ok? ==>
            |r.value.entries| == n + 1
            && r.value.entries[n].id == id
            && r.value.entries[n].status == st.entries[p].status
            && r.value.entries[n].data == Obj([Field("type", Str("VM")), Field("id", Get(params, "id"))])
            && r.value.entries[n].start == rec.time
            && r.value.entries[p].tasks == Some(st.entries[p].tasks.GetOr([]) + [n])
            && (forall q :: 0 <= q < n && q != p ==> r.value.entries[q] == st.entries[q])
            && r.value.started == st.started[id := n]
            && r.value.consolidated == st.consolidated)
  {
  }

  /** A `jobCall.start` whose run is not started changes nothing. */
  lemma JobCallOrphan(st: State, id: string, rec: LogRecord)
    requires Wf(st)
    requires StartedIndex(st, Get(rec.data, "runJobId")).None?
    ensures JobCallStart(st, id, rec) == Ok(st)
  {
  }

  /** An end record for an id that is not started changes nothing. */
  lemma EndUnknown(cfg: Config, st: State, key: Value, time: int, result: Value, status: Value)
    requires Wf(st)
    requires StartedIndex(st, key).None?
    ensures EndEntry(cfg, st, key, time, result, status) == Ok(st)
  {
  }

  /** An end record takes effect once: the entry leaves `started`, so the
      same record again changes nothing. */
  lemma {:induction false} EndOnce(cfg: Config, st: State, key: Value, time: int, result: Value, status: Value, time2: int, result2: Value, status2: Value)
    requires Wf(st)
    requires EndEntry(cfg, st, key, time, result, status).Ok?
    ensures var st1 := EndEntry(cfg, st, key, time, result, status).value;
      StartedIndex(st1, key).None?
      && EndEntry(cfg, st1, key, time2, result2, status2) == Ok(st1)
  {
    var st1 := EndEntry(cfg, st, key, time, result, status).value;
    EndEntryLeaves(cfg, st, key, time, result, status);
    EndUnknown(cfg, st1, key, time2, result2, status2);
  }

  lemma EndEntryLeaves(cfg: Config, st: State, key: Value, time: int, result: Value, status: Value)
    requires Wf(st)
    requires EndEntry(cfg, st, key, time, result, status).Ok?
    ensures StartedIndex(EndEntry(cfg, st, key, time, result, status).value, key).None?
  {
  }

  /** What an end record does to a started entry: end time, result, and
      the status and order its children call for; nothing else moves. */
  lemma EndEntryEffect(cfg: Config, st: State, key: Value, time: int, result: Value, status: Value)
    requires Wf(st)
    requires StartedIndex(st, key).Some?
    requires GetStatus(result, status, cfg.isNoSuchObject).Ok?
    ensures var p := StartedIndex(st, key).value;
      var e := st.entries[p];
      var s := GetStatus(result, status, cfg.isNoSuchObject).value;
      var children := if e.tasks.Some? then Some(ChildStatuses(e.tasks.value, st.entries)) else None;
      var r := EndEntry(cfg, st, key, time, result, status);
      r.Ok?
      && |r.value.entries| == |st.entries|
      && (forall q :: 0 <= q < |st.entries| && q != p ==> r.value.entries[q] == st.entries[q])
      && r.value.entries[p].end == Some(time)
      && r.value.entries[p].result == Some(result)
      && r.value.entries[p].status == StatusAfter(s, children)
      && (SortsTasks(s, children) ==> r.value.entries[p].tasks == Some(SortByTime(e.tasks.value, st.entries)))
      && (!SortsTasks(s, children) ==> r.value.entries[p].tasks == e.tasks)
      && r.value.started == st.started - {PropertyKey(key).value}
      && r.value.consolidated == st.consolidated
  {
  }

  // ===================================================================
  // The result

  /** A log object as the caller sees it: the entry with its children in
      place of their indices. */
  datatype LogTree = LogTree(entry: Entry, children: Option<seq<LogTree>>)

  function Render(es: seq<Entry>, p: nat): (t: LogTree)
    requires Wf(State(es, map[], map[])) && p < |es|
    ensures t.entry == es[p]
    ensures t.children.Some? <==> es[p].tasks.Some?
    ensures t.children.Some? ==> |t.children.value| == |es[p].tasks.value|
    decreases |es| - p, 1
  {
    var ts := es[p].tasks;
    LogTree(es[p], if ts.Some? then Some(RenderAll(es, ts.value, p)) else None)
  }

  function RenderAll(es: seq<Entry>, ts: seq<nat>, p: nat): (r: seq<LogTree>)
    requires Wf(State(es, map[], map[]))
    requires forall j :: 0 <= j < |ts| ==> p < ts[j] < |es|
    ensures |r| == |ts|
    ensures forall j :: 0 <= j < |ts| ==> r[j] == Render(es, ts[j])
    decreases |es| - p, 0, |ts|
  {
    if ts == [] then [] else [Render(es, ts[0])] + RenderAll(es, ts[1..], p)
  }

  /** `consolidated`, or `consolidated[runId]` when a run is asked for. */
  datatype Answer = All(runs: map<string, LogTree>) | One(run: Option<LogTree>)

  function AnswerOf(cfg: Config, st: State): (r: Answer)
    requires Wf(st)
    ensures cfg.runId.None? <==> r.All?
    ensures r.All? ==> r.runs.Keys == st.consolidated.Keys
    ensures r.One? ==> (r.run.Some? <==> cfg.runId.value in st.consolidated)
    ensures r.All? ==> forall id :: id in r.runs ==> r.runs[id] == Render(st.entries, st.consolidated[id])
    ensures r.One? && r.run.Some? ==> r.run.value == Render(st.entries, st.consolidated[cfg.runId.value])
  {
    assert Wf(State(st.entries, map[], map[]));
    if cfg.runId.None? then
      All(map id | id in st.consolidated :: Render(st.entries, st.consolidated[id]))
    else if cfg.runId.value in st.consolidated then
      One(Some(Render(st.entries, st.consolidated[cfg.runId.value])))
    else One(None)
  }

  /** `getBackupNgLogs(runId)`: the job logs, then the restore logs. */
  function Consolidation(cfg: Config, jobLogs: seq<(string, LogRecord)>, restoreLogs: seq<(string, LogRecord)>): Result<Answer, string> {
    var st1 :- Fold(cfg, EmptyState(), jobLogs);
    var st2 :- Fold(cfg, st1, restoreLogs);
    Ok(AnswerOf(cfg, st2))
  }

  /** Records of one run never reach the answer for another: with a run
      asked for, only that id can enter `consolidated`. */
  lemma {:induction false} FoldOnlySelected(cfg: Config, st: State, logs: seq<(string, LogRecord)>)
    requires Wf(st) && cfg.runId.Some?
    requires st.consolidated.Keys <= {cfg.runId.value}
    requires Fold(cfg, st, logs).Ok?
    ensures Fold(cfg, st, logs).value.consolidated.Keys <= {cfg.runId.value}
  {
    if logs != [] {
      FoldOnlySelected(cfg, st, logs[..|logs| - 1]);
      var prev := Fold(cfg, st, logs[..|logs| - 1]).value;
      StepOnlySelected(cfg, prev, logs[|logs| - 1].0, logs[|logs| - 1].1);
    }
  }

  /** One record of another run leaves `consolidated` alone. */
  lemma StepOnlySelected(cfg: Config, st: State, id: string, rec: LogRecord)
    requires Wf(st) && cfg.runId.Some?
    requires st.consolidated.Keys <= {cfg.runId.value}
    requires Step(cfg, st, id, rec).Ok?
    ensures Step(cfg, st, id, rec).value.consolidated.Keys <= {cfg.runId.value}
  {
    var data := rec.data;
    var event := GetProp(data, "event").value;
    if event == Str("job.start") {
      JobStartOnlySelected(cfg, st, id, rec);
    } else if event == Str("job.end") {
      EndEntryKeeps(cfg, st, Get(data, "runJobId"), rec.time, Get(data, "error"), Undefined);
    } else if event == Str("task.start") {
      TaskStartOnlySelected(cfg, st, id, rec);
    } else if event == Str("task.end") {
      EndEntryKeeps(cfg, st, Get(data, "taskId"), rec.time, Get(data, "result"), Get(data, "status"));
    } else if event == Str("jobCall.end") {
      EndEntryKeeps(cfg, st, Get(data, "runCallId"), rec.time, Get(data, "error"), Undefined);
    }
  }

  lemma JobStartOnlySelected(cfg: Config, st: State, id: string, rec: LogRecord)
    requires Wf(st) && cfg.runId.Some?
    requires st.consolidated.Keys <= {cfg.runId.value}
    ensures JobStart(cfg, st, id, rec).consolidated.Keys <= {cfg.runId.value}
  {
  }

  lemma TaskStartOnlySelected(cfg: Config, st: State, id: string, rec: LogRecord)
    requires Wf(st) && cfg.runId.Some?
    requires st.consolidated.Keys <= {cfg.runId.value}
    ensures TaskStart(cfg, st, id, rec).consolidated.Keys <= {cfg.runId.value}
  {
  }

  lemma EndEntryKeeps(cfg: Config, st: State, key: Value, time: int, result: Value, status: Value)
    requires Wf(st)
    ensures EndEntry(cfg, st, key, time, result, status).Ok? ==>
      EndEntry(cfg, st, key, time, result, status).value.consolidated == st.consolidated
  {
  }

  // ===================================================================
  // The consolidator, as the source writes it

  class Consolidator {
    const cfg: Config
    var entries: seq<Entry>
    var consolidated: map<string, nat>
    var started: map<string, nat>

    function Contents(): State
      reads this
    {
      State(entries, consolidated, started)
    }

    predicate Valid()
      reads this
    {
      Wf(Contents())
    }

    constructor (cfg: Config)
      ensures Valid() && this.cfg == cfg && Contents() == EmptyState()
    {
      this.cfg := cfg;
      entries := [];
      consolidated := map[];
      started := map[];
    }

    /** `computeStatusAndSortTasks(status, tasks)`. */
    method ComputeStatusAndSortTasks(status: Value, tasks: Option<seq<nat>>) returns (r: Value, newTasks: Option<seq<nat>>)
      requires tasks.Some? ==> IndicesIn(tasks.value, entries)
      ensures var children := if tasks.Some? then Some(ChildStatuses(tasks.value, entries)) else None;
        r == StatusAfter(status, children)
        && newTasks == if SortsTasks(status, children) then Some(SortByTime(tasks.value, entries)) else tasks
    {
      newTasks := tasks;
      if status == Str("failure") || tasks.None? {
        return status, tasks;
      }
      var ts := tasks.value;
      ghost var children := ChildStatuses(ts, entries);
      r := status;
      var i := 0;
      while i < |ts|
        invariant 0 <= i <= |ts|
        invariant Str("failure") !in children[..i]
        invariant r == if Str("skipped") in children[..i] then Str("skipped") else status
      {
        var taskStatus := entries[ts[i]].status;
        assert children[..i + 1] == children[..i] + [taskStatus];
        if taskStatus == Str("failure") {
          assert Str("failure") in children;
          return taskStatus, tasks;
        }
        if taskStatus == Str("skipped") {
          r := taskStatus;
        }
        i := i + 1;
      }
      assert children[..|ts|] == children;
      newTasks := Some(SortByTime(ts, entries));
    }

    /** The three end events. */
    method FinishEntry(key: Value, time: int, result: Value, status: Value) returns (r: Result<(), string>)
      requires Valid()
      modifies this
      ensures var s := EndEntry(cfg, old(Contents()), key, time, result, status);
        (r.Ok? <==> s.Ok?) && (r.Ok? ==> Contents() == s.value && Valid())
      ensures r.Err? ==> r.error == EndEntry(cfg, old(Contents()), key, time, result, status).error
    {
      var p := StartedIndex(Contents(), key);
      if p.None? {
        return Ok(());
      }
      var e := entries[p.value];
      var s := GetStatus(result, status, cfg.isNoSuchObject);
      if s.Err? {
        return Err(s.error);
      }
      var st, tasks := ComputeStatusAndSortTasks(s.value, e.tasks);
      started := started - {PropertyKey(key).value};
      entries := entries[p.value := e.(end := Some(time), result := Some(result), status := st, tasks := tasks)];
      return Ok(());
    }

    /** A new entry, at the end of the arena. */
    method Push(e: Entry) returns (n: nat)
      modifies this
      ensures n == |old(entries)| && entries == old(entries) + [e]
      ensures consolidated == old(consolidated) && started == old(started)
    {
      n := |entries|;
      entries := entries + [e];
    }

    /** `handleLog(record, id)`. */
    method HandleLog(id: string, rec: LogRecord) returns (r: Result<(), string>)
      requires Valid()
      modifies this
      ensures var s := Step(cfg, old(Contents()), id, rec);
        (r.Ok? <==> s.Ok?) && (r.Ok? ==> Contents() == s.value && Valid())
      ensures r.Err? ==> r.error == Step(cfg, old(Contents()), id, rec).error
    {
      var data := rec.data;
      if IsNullish(data) {
        return Err(GetProp(data, "event").error);
      }
      var event := Get(data, "event");
      if event == Str("job.start") {
        ghost var next := JobStart(cfg, Contents(), id, rec);
        if (Get(data, "type") == Str("backup") || Get(data, "key").Undefined?) && RunSelected(cfg, id) {
          var jobId := Get(data, "jobId");
          var key := PropertyKey(jobId);
          var running := key.Some? && key.value in cfg.runningJobs && cfg.runningJobs[key.value] == id;
          var n := Push(NewEntry(id, Get(data, "data"), rec.time, if running then Str("pending") else Str("interrupted"),
                                 JobInfo(jobId, Get(data, "jobName"), Get(data, "scheduleId"))));
          consolidated := consolidated[id := n];
          started := started[id := n];
        }
        assert Contents() == next;
        return Ok(());
      } else if event == Str("job.end") {
        r := FinishEntry(Get(data, "runJobId"), rec.time, Get(data, "error"), Undefined);
      } else if event == Str("task.start") {
        r := StartTask(id, rec);
      } else if event == Str("task.end") {
        r := FinishEntry(Get(data, "taskId"), rec.time, Get(data, "result"), Get(data, "status"));
      } else if event == Str("task.warning") {
        var p := StartedIndex(Contents(), Get(data, "taskId"));
        if p.Some? {
          var e := entries[p.value];
          entries := entries[p.value := e.(warnings := Some(e.warnings.GetOr([]) + [Warning(Get(data, "data"), rec.message)]))];
        }
        return Ok(());
      } else if event == Str("jobCall.start") {
        r := StartJobCall(id, rec);
      } else if event == Str("jobCall.end") {
        r := FinishEntry(Get(data, "runCallId"), rec.time, Get(data, "error"), Undefined);
      } else {
        return Ok(());
      }
    }

    /** `task.start`. */
    method StartTask(id: string, rec: LogRecord) returns (r: Result<(), string>)
      requires Valid()
      modifies this
      ensures r.Ok? && Contents() == TaskStart(cfg, old(Contents()), id, rec) && Valid()
    {
      var parentId := Get(rec.data, "parentId");
      if parentId.Undefined? && RunSelected(cfg, id) {
        var interrupted := rec.message == Str("restore") && id !in cfg.runningRestores;
        var n := Push(NewEntry(id, Get(rec.data, "data"), rec.time, if interrupted then Str("interrupted") else Str("pending"),
                               TaskInfo(rec.message)));
        consolidated := consolidated[id := n];
        started := started[id := n];
        return Ok(());
      }
      var p := StartedIndex(Contents(), parentId);
      if p.Some? {
        var n := Push(NewEntry(id, Get(rec.data, "data"), rec.time, entries[p.value].status, TaskInfo(rec.message)));
        started := started[id := n];
        var parent := entries[p.value];
        entries := entries[p.value := parent.(tasks := Some(parent.tasks.GetOr([]) + [n]))];
      }
      return Ok(());
    }

    /** `jobCall.start`. */
    method StartJobCall(id: string, rec: LogRecord) returns (r: Result<(), string>)
      requires Valid()
      modifies this
      ensures var s := JobCallStart(old(Contents()), id, rec);
        (r.Ok? <==> s.Ok?) && (r.Ok? ==> Contents() == s.value && Valid())
      ensures r.Err? ==> r.error == JobCallStart(old(Contents()), id, rec).error
    {
      var p := StartedIndex(Contents(), Get(rec.data, "runJobId"));
      if p.None? {
        return Ok(());
      }
      var vm := GetProp(Get(rec.data, "params"), "id");
      if vm.Err? {
        return Err(vm.error);
      }
      var n := Push(NewEntry(id, Obj([Field("type", Str("VM")), Field("id", vm.value)]), rec.time, entries[p.value].status, CallInfo));
      started := started[id := n];
      var parent := entries[p.value];
      entries := entries[p.value := parent.(tasks := Some(parent.tasks.GetOr([]) + [n]))];
      return Ok(());
    }

    /** `forEach(logs, handleLog)`. */
    method HandleLogs(logs: seq<(string, LogRecord)>) returns (r: Result<(), string>)
      requires Valid()
      modifies this
      ensures var s := Fold(cfg, old(Contents()), logs);
        (r.Ok? <==> s.Ok?) && (r.Ok? ==> Contents() == s.value && Valid())
      ensures r.Err? ==> r.error == Fold(cfg, old(Contents()), logs).error
    {
      ghost var st0 := Contents();
      var i := 0;
      while i < |logs|
        invariant 0 <= i <= |logs| && Valid()
        invariant Fold(cfg, st0, logs[..i]) == Ok(Contents())
      {
        FoldSnoc(cfg, st0, logs, i);
        r := HandleLog(logs[i].0, logs[i].1);
        if r.Err? {
          FoldErrorSticks(cfg, st0, logs, i + 1);
          return r;
        }
        i := i + 1;
      }
      assert logs[..|logs|] == logs;
      return Ok(());
    }
  }

  /** The fold over one more record is one more step. */
  lemma FoldSnoc(cfg: Config, st: State, logs: seq<(string, LogRecord)>, i: nat)
    requires Wf(st) && i < |logs|
    requires Fold(cfg, st, logs[..i]).Ok?
    ensures Fold(cfg, st, logs[..i + 1]) == Step(cfg, Fold(cfg, st, logs[..i]).value, logs[i].0, logs[i].1)
  {
    assert logs[..i + 1][..i] == logs[..i];
  }

  /** Once a record throws, the fold over any longer prefix throws the
      same error. */
  lemma {:induction false} FoldErrorSticks(cfg: Config, st: State, logs: seq<(string, LogRecord)>, i: nat)
    requires Wf(st) && i <= |logs|
    requires Fold(cfg, st, logs[..i]).Err?
    ensures Fold(cfg, st, logs) == Fold(cfg, st, logs[..i])
    decreases |logs| - i
  {
    if i < |logs| {
      assert logs[..i + 1][..i] == logs[..i];
      FoldErrorSticks(cfg, st, logs, i + 1);
    } else {
      assert logs[..i] == logs;
    }
  }

  /** `getBackupNgLogs(runId)`, once the logs are read. */
  method GetBackupNgLogs(cfg: Config, jobLogs: seq<(string, LogRecord)>, restoreLogs: seq<(string, LogRecord)>)
    returns (r: Result<Answer, string>)
    ensures r == Consolidation(cfg, jobLogs, restoreLogs)
  {
    var c := new Consolidator(cfg);
    var a := c.HandleLogs(jobLogs);
    if a.Err? {
      return Err(a.error);
    }
    var b := c.HandleLogs(restoreLogs);
    if b.Err? {
      return Err(b.error);
    }
    return Ok(AnswerOf(cfg, c.Contents()));
  }
}
