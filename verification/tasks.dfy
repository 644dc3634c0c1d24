/** The background task records of backend/main.py (`backup_tasks`) and the
    backup-script runner `run_backup_script`. Starting the shell command is
    outside the model: how the script run ended is a parameter. */
module Tasks {
  import opened Wrappers
  import opened Seqs
  import opened Text
  import opened Http

  datatype BackupType = MongoDb | Milvus | Postgres | Additional | Global

  function TypeValue(t: BackupType): string {
    match t
    case MongoDb => "mongodb"
    case Milvus => "milvus"
    case Postgres => "postgres"
    case Additional => "additional"
    case Global => "global"
  }

  /** `BackupType(s)`, or `None` where Python raises `ValueError`. */
  function ParseBackupType(s: string): (r: Option<BackupType>)
    ensures r.Some? ==> TypeValue(r.value) == s
    ensures r.None? ==> forall t :: TypeValue(t) != s
  {
    if s == "mongodb" then Some(MongoDb)
    else if s == "milvus" then Some(Milvus)
    else if s == "postgres" then Some(Postgres)
    else if s == "additional" then Some(Additional)
    else if s == "global" then Some(Global)
    else None
  }

  datatype TaskStatus = Pending | Running | Completed | Failed

  /** One entry of `backup_tasks`. `kind` is the backup type's value, or
      `restore`. */
  datatype Task = Task(
    taskId: string,
    kind: string,
    status: TaskStatus,
    startedAt: string,
    completedAt: Option<string>,
    output: seq<string>,
    error: Option<string>)

  predicate Finished(t: Task) {
    (t.status == Completed || t.status == Failed) && t.completedAt.Some?
  }

  /** A task as the endpoints create it: pending, with the given first output lines. */
  function NewTask(taskId: string, kind: string, now: string, output: seq<string>): (t: Task)
    ensures t.status == Pending && t.completedAt.None? && t.error.None?
  {
    Task(taskId, kind, Pending, now, None, output, None)
  }

  // ---------------------------------------------------------------------
  // run_backup_script
  // ---------------------------------------------------------------------

  const DefaultScript: string := "backup_global.sh"

  const ScriptMap: map<BackupType, string> := map[
    MongoDb := "backup_mongodb_docker.sh",
    Milvus := "backup_volumes_docker.sh",
    Postgres := "backup_postgres_docker.sh",
    Global := "backup_global.sh"
  ]

  /** `script_map.get(backup_type, "backup_global.sh")`. */
  function ScriptFor(t: BackupType): (s: string)
    ensures t in ScriptMap ==> s == ScriptMap[t]
    ensures t !in ScriptMap ==> s == DefaultScript
  {
    if t in ScriptMap then ScriptMap[t] else DefaultScript
  }

  /** The additional volumes have no script of their own and run the global
      backup; every other type has a distinct script. */
  lemma ScriptChoice(a: BackupType, b: BackupType)
    ensures ScriptFor(Additional) == ScriptFor(Global)
    ensures ScriptFor(a) == ScriptFor(b) <==> a == b || (a in {Additional, Global} && b in {Additional, Global})
  {
  }

  /** How the script run ended: it exited with a return code after printing
      `lines`, or starting or reading it raised after `lines`. */
  datatype ScriptRun =
    | Exited(lines: seq<string>, code: int)
    | Raised(lines: seq<string>, message: string)

  /** Each line printed is stripped; blank lines are dropped. */
  function OutputLines(raw: seq<string>): (r: seq<string>)
    ensures |r| <= |raw|
    ensures forall i :: 0 <= i < |r| ==> r[i] != "" && r[i] == Strip(r[i])
    decreases |raw|
  {
    if |raw| == 0 then []
    else
      var s := Strip(raw[0]);
      StripStable(raw[0]);
      if s == "" then OutputLines(raw[1..]) else [s] + OutputLines(raw[1..])
  }

  /** `strip()` is idempotent. */
  lemma StripStable(s: string)
    ensures Strip(Strip(s)) == Strip(s)
  {
    var r := Strip(s);
    StripShape(s);
    StripUnpadded(r);
  }

  const ExitCodePrefix: string := "Exit code: "

  function ExitCodeMessage(code: int): string {
    ExitCodePrefix + IntToString(code)
  }

  /** The failure message gives the exit code back. */
  lemma ExitCodeMessageReadable(code: int)
    ensures IsPrefix(ExitCodePrefix, ExitCodeMessage(code))
    ensures ParseInt(ExitCodeMessage(code)[|ExitCodePrefix|..]) == Some(code)
  {
    var m := ExitCodeMessage(code);
    assert m[|ExitCodePrefix|..] == IntToString(code);
    IntToStringRoundTrip(code);
  }

  /** `run_backup_script` on the task's record: it is marked running, collects
      the output, and ends completed exactly when the script exited with 0. */
  function RunBackupScript(t: Task, run: ScriptRun, now: string): (r: Task)
    ensures r.status == Completed <==> run.Exited? && run.code == 0
    ensures r.status != Completed ==> r.status == Failed
    ensures run.Exited? && run.code != 0 ==> r.error == Some(ExitCodeMessage(run.code))
    ensures run.Raised? ==> r.error == Some(run.message)
    ensures r.status == Completed ==> r.error == t.error
    ensures r.completedAt == Some(now) && Finished(r)
    ensures r.output == t.output + OutputLines(run.lines)
    ensures r.taskId == t.taskId && r.kind == t.kind && r.startedAt == t.startedAt
  {
    var running := t.(status := Running, output := t.output + OutputLines(run.lines));
    var ended :=
      match run
      case Exited(_, code) =>
        if code == 0 then running.(status := Completed)
        else running.(status := Failed, error := Some(ExitCodeMessage(code)))
      case Raised(_, msg) => running.(status := Failed, error := Some(msg));
    ended.(completedAt := Some(now))
  }

  // ---------------------------------------------------------------------
  // start_backup / get_task_status
  // ---------------------------------------------------------------------

  type TaskTable = map<string, Task>

  /** `start_backup`: refuses when Docker is down or the share is not mounted;
      otherwise registers a pending task `backup_<type>_<stamp>`, where `stamp`
      is the current second. A task started in the same second replaces it. */
  function StartBackup(tasks: TaskTable, dockerUp: bool, mounted: bool, t: BackupType, stamp: string,
                       now: string): (r: Result<(string, TaskTable), HttpError>)
    ensures !dockerUp ==> r == Failure(DockerDown)
    ensures dockerUp && !mounted ==> r == Failure(QnapNotMounted)
    ensures dockerUp && mounted ==> r.Success?
    ensures r.Success? ==>
      var (id, after) := r.value;
      id == "backup_" + TypeValue(t) + "_" + stamp
      && after == tasks[id := NewTask(id, TypeValue(t), now, [])]
  {
    if !dockerUp then Failure(DockerDown)
    else if !mounted then Failure(QnapNotMounted)
    else
      var id := "backup_" + TypeValue(t) + "_" + stamp;
      Success((id, tasks[id := NewTask(id, TypeValue(t), now, [])]))
  }

  /** The background part of a started backup: the script's run is recorded
      in the task the endpoint registered. */
  function FinishBackup(tasks: TaskTable, id: string, run: ScriptRun, now: string): (after: TaskTable)
    requires id in tasks
    ensures after.Keys == tasks.Keys
    ensures forall k :: k in tasks && k != id ==> after[k] == tasks[k]
    ensures Finished(after[id])
  {
    tasks[id := RunBackupScript(tasks[id], run, now)]
  }

  /** A started backup moves from pending to completed or failed, and is
      completed exactly when its script exited with 0. */
  lemma BackupLifecycle(tasks: TaskTable, t: BackupType, stamp: string, now: string, run: ScriptRun, later: string)
    requires StartBackup(tasks, true, true, t, stamp, now).Success?
    ensures var (id, started) := StartBackup(tasks, true, true, t, stamp, now).value;
      started[id].status == Pending
      && var done := FinishBackup(started, id, run, later)[id];
         Finished(done) && (done.status == Completed <==> run.Exited? && run.code == 0)
         && done.completedAt == Some(later) && done.startedAt == now
  {
  }

  const TaskNotFound: HttpError := HttpError(404, "Tarea no encontrada")

  /** `get_task_status`. */
  function GetTaskStatus(tasks: TaskTable, id: string): (r: Result<Task, HttpError>)
    ensures r.Failure? <==> id !in tasks
    ensures r.Failure? ==> r.error == TaskNotFound
    ensures r.Success? ==> r.value == tasks[id]
  {
    if id in tasks then Success(tasks[id]) else Failure(TaskNotFound)
  }

  /** Looking a task up right after `start_backup` finds the new pending
      task, and every other id answers as before. */
  lemma StartedBackupReadBack(tasks: TaskTable, t: BackupType, stamp: string, now: string, other: string)
    requires StartBackup(tasks, true, true, t, stamp, now).Success?
    ensures var (id, started) := StartBackup(tasks, true, true, t, stamp, now).value;
      GetTaskStatus(started, id) == Success(NewTask(id, TypeValue(t), now, []))
      && GetTaskStatus(started, id).value.status == Pending
      && (other != id ==> GetTaskStatus(started, other) == GetTaskStatus(tasks, other))
  {
  }
}
