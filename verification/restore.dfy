/** `run_restore_script` (backend/main.py): for each requested component,
    find its backup directory and restore every `*.tar.gz` volume archive in
    it. The file system and the Docker commands are outside the model: a
    `RestoreEnv` answers which directories exist, which archives they hold,
    and how each volume's restore ended. */
module Restore {
  import opened Wrappers
  import opened Seqs
  import opened Text
  import opened Tasks

  /** The directory holding `component`'s backup taken at `timestamp`, or
      `None` for a component the restore does not know (it is skipped). */
  function RestorePath(base: string, component: string, timestamp: string): (r: Option<string>)
    ensures r.Some? <==> component in {"mongodb", "milvus", "postgres", "additional"}
    ensures r.Some? ==> IsPrefix(base + "/", r.value) && IsSuffix(timestamp, r.value)
  {
    if component == "mongodb" then Some(base + "/mongodb/mongodb_backup_" + timestamp)
    else if component == "milvus" then Some(base + "/volumes/milvus_backup_" + timestamp)
    else if component == "postgres" then Some(base + "/postgres/postgres_backup_" + timestamp)
    else if component == "additional" then Some(base + "/volumes/additional_" + timestamp)
    else None
  }

  /** The infix between the base directory and the timestamp. */
  function Infix(component: string): string {
    if component == "mongodb" then "/mongodb/mongodb_backup_"
    else if component == "milvus" then "/volumes/milvus_backup_"
    else if component == "postgres" then "/postgres/postgres_backup_"
    else "/volumes/additional_"
  }

  /** Different components or different timestamps never share a directory. */
  lemma RestorePathInjective(base: string, c1: string, t1: string, c2: string, t2: string)
    requires RestorePath(base, c1, t1).Some? && RestorePath(base, c1, t1) == RestorePath(base, c2, t2)
    ensures c1 == c2 && t1 == t2
  {
    var p := RestorePath(base, c1, t1).value;
    var x1 := Infix(c1);
    var x2 := Infix(c2);
    assert p == base + x1 + t1 && p == base + x2 + t2;
    assert p[|base| + 1] == x1[1] == x2[1];
    if |x1| > 9 && |x2| > 9 {
      assert p[|base| + 9] == x1[9] == x2[9];
    }
    assert c1 == c2;
    assert t1 == p[|base| + |x1|..] == t2;
  }

  /** How one volume's restore ended: the `docker run` exited 0, exited with
      another code, or starting one of the two commands raised. */
  datatype VolumeOutcome = Restored | NotRestored | SpawnFailed(message: string)

  datatype RestoreEnv = RestoreEnv(
    isDir: string -> bool,
    archives: string -> seq<string>,
    restore: (string, string) -> VolumeOutcome)

  const ArchiveSuffix: string := ".gz"

  /** `tar_file.stem.replace(".tar", "")` for an archive named `<v>.tar.gz`. */
  function VolumeName(archive: string): string {
    var stem := if IsSuffix(ArchiveSuffix, archive) then archive[..|archive| - |ArchiveSuffix|] else archive;
    ReplaceAll(stem, ".tar", "")
  }

  /** The archive of a volume whose name does not contain `.tar` names it. */
  lemma VolumeNameRoundTrip(v: string)
    requires !Contains(v, ".tar")
    ensures VolumeName(v + ".tar.gz") == v
  {
    var a := v + ".tar.gz";
    assert a[|a| - 3..] == ".gz";
    assert a[..|a| - 3] == v + ".tar";
    assert Unbordered(".tar") by {
      var p := ".tar";
      forall k | 0 < k < |p| ensures p[k..] != p[..|p| - k] {
        assert p[k..][0] != p[..|p| - k][0];
      }
    }
    ReplaceAllTrailing(v, ".tar");
  }

  /** What the restore finds for one component. */
  datatype Plan =
    | Unknown
    | NoBackup(path: string)
    | Archives(dir: string, inSubdir: bool, files: seq<string>)

  /** The `volumes/` sub-directory of newer backups is used when present. */
  function PlanFor(base: string, timestamp: string, component: string, env: RestoreEnv): Plan {
    match RestorePath(base, component, timestamp)
    case None => Unknown
    case Some(p) =>
      if !env.isDir(p) then NoBackup(p)
      else
        var sub := p + "/volumes";
        var dir := if env.isDir(sub) then sub else p;
        Archives(dir, env.isDir(sub), env.archives(dir))
  }

  /** No volume restore of the component raises. */
  predicate ComponentRuns(base: string, timestamp: string, component: string, env: RestoreEnv) {
    var plan := PlanFor(base, timestamp, component, env);
    plan.Archives? ==> forall i :: 0 <= i < |plan.files| ==> !env.restore(plan.dir, plan.files[i]).SpawnFailed?
  }

  // The task output lines.
  function StartLine(c: string): string { "\U{1F504} Restaurando " + c + "..." }
  function MissingLine(c: string, t: string): string {
    "\U{26A0}\U{FE0F} No se encontr\U{F3} backup de " + c + " para " + t
  }
  const SubdirLine: string := "   \U{1F4C1} Usando subdirectorio volumes/"
  function VolumeLine(v: string, ok: bool): string {
    if ok then "   \U{2705} " + v else "   \U{274C} " + v
  }
  function DoneLine(c: string): string { "\U{2705} " + c + " restaurado" }

  /** Lines written so far, and the message of the exception that stopped
      the loop, if one did. */
  datatype Progress = Progress(lines: seq<string>, error: Option<string>)

  /** The inner loop: one line per archive, stopping at the first raise. */
  function RestoreVolumes(dir: string, files: seq<string>, env: RestoreEnv): (r: Progress)
    ensures r.error.None? <==> forall i :: 0 <= i < |files| ==> !env.restore(dir, files[i]).SpawnFailed?
    ensures r.error.None? ==>
      |r.lines| == |files|
      && forall i :: 0 <= i < |files| ==>
           r.lines[i] == VolumeLine(VolumeName(files[i]), env.restore(dir, files[i]).Restored?)
    ensures r.error.Some? ==>
      exists i :: 0 <= i < |files| && env.restore(dir, files[i]) == SpawnFailed(r.error.value)
    decreases |files|
  {
    if |files| == 0 then Progress([], None)
    else
      match env.restore(dir, files[0])
      case SpawnFailed(m) => Progress([], Some(m))
      case outcome =>
        var rest := RestoreVolumes(dir, files[1..], env);
        assert forall i :: 1 <= i < |files| ==> files[i] == files[1..][i - 1];
        Progress([VolumeLine(VolumeName(files[0]), outcome.Restored?)] + rest.lines, rest.error)
  }

  /** One iteration of the outer loop. */
  function RestoreComponent(base: string, timestamp: string, c: string, env: RestoreEnv): (r: Progress)
    ensures r.error.None? <==> ComponentRuns(base, timestamp, c, env)
    ensures |r.lines| > 0 && r.lines[0] == StartLine(c)
    ensures r.error.None? && PlanFor(base, timestamp, c, env).Archives? ==> r.lines[|r.lines| - 1] == DoneLine(c)
  {
    match PlanFor(base, timestamp, c, env)
    case Unknown => Progress([StartLine(c)], None)
    case NoBackup(_) => Progress([StartLine(c), MissingLine(c, timestamp)], None)
    case Archives(dir, inSubdir, files) =>
      var head := [StartLine(c)] + (if inSubdir then [SubdirLine] else []);
      var vols := RestoreVolumes(dir, files, env);
      if vols.error.Some? then Progress(head + vols.lines, vols.error)
      else Progress(head + vols.lines + [DoneLine(c)], None)
  }

  /** The outer loop over the requested components, stopping at the first raise. */
  function RestoreComponents(base: string, timestamp: string, cs: seq<string>, env: RestoreEnv): (r: Progress)
    ensures r.error.None? <==> forall i :: 0 <= i < |cs| ==> ComponentRuns(base, timestamp, cs[i], env)
    decreases |cs|
  {
    if |cs| == 0 then Progress([], None)
    else
      var first := RestoreComponent(base, timestamp, cs[0], env);
      if first.error.Some? then first
      else
        var rest := RestoreComponents(base, timestamp, cs[1..], env);
        assert forall i :: 1 <= i < |cs| ==> cs[i] == cs[1..][i - 1];
        Progress(first.lines + rest.lines, rest.error)
  }

  /** `run_restore_script` on the task's record: completed unless some
      command raised; a volume whose restore exits non-zero is only reported. */
  function RunRestore(t: Task, base: string, timestamp: string, cs: seq<string>, env: RestoreEnv, now: string)
    : (r: Task)
    ensures r.status == Completed <==> forall i :: 0 <= i < |cs| ==> ComponentRuns(base, timestamp, cs[i], env)
    ensures r.status != Completed ==> r.status == Failed && r.error.Some?
    ensures r.status == Completed ==> r.error == t.error
    ensures r.completedAt == Some(now) && Finished(r)
    ensures |t.output| <= |r.output| && r.output[..|t.output|] == t.output
    ensures r.taskId == t.taskId && r.kind == t.kind && r.startedAt == t.startedAt
  {
    var p := RestoreComponents(base, timestamp, cs, env);
    var out := t.output + p.lines;
    assert out[..|t.output|] == t.output;
    match p.error
    case None => t.(status := Completed, output := out, completedAt := Some(now))
    case Some(m) => t.(status := Failed, output := out, error := Some(m), completedAt := Some(now))
  }

  /** A volume whose `docker run` fails does not fail the restore: with no
      command raising, the component's output reports each archive in turn,
      the failed ones marked, and closes with the component's done line. */
  lemma VolumeFailureIsolated(base: string, timestamp: string, c: string, env: RestoreEnv)
    requires PlanFor(base, timestamp, c, env).Archives?
    requires ComponentRuns(base, timestamp, c, env)
    ensures var plan := PlanFor(base, timestamp, c, env);
      var lines := RestoreComponent(base, timestamp, c, env).lines;
      var k := if plan.inSubdir then 2 else 1;
      |lines| == k + |plan.files| + 1
      && (forall i :: 0 <= i < |plan.files| ==>
            lines[k + i] == VolumeLine(VolumeName(plan.files[i]), env.restore(plan.dir, plan.files[i]).Restored?))
      && lines[|lines| - 1] == DoneLine(c)
  {
    var plan := PlanFor(base, timestamp, c, env);
    var dir, files := plan.dir, plan.files;
    var vols := RestoreVolumes(dir, files, env);
    assert vols.error.None?;
    var head := [StartLine(c)] + (if plan.inSubdir then [SubdirLine] else []);
    var lines := RestoreComponent(base, timestamp, c, env).lines;
    assert lines == head + vols.lines + [DoneLine(c)];
    var k := |head|;
    assert forall i :: 0 <= i < |files| ==> lines[k + i] == vols.lines[i];
  }

  /** `start_restore`: refuses when Docker is down or the share is not
      mounted; otherwise registers a pending `restore` task. */
  function StartRestore(tasks: TaskTable, dockerUp: bool, mounted: bool, timestamp: string, stamp: string,
                        now: string): (r: Result<(string, TaskTable), Http.HttpError>)
    ensures !dockerUp ==> r == Failure(Http.DockerDown)
    ensures dockerUp && !mounted ==> r == Failure(Http.QnapNotMounted)
    ensures dockerUp && mounted ==> r.Success?
    ensures r.Success? ==>
      var (id, after) := r.value;
      id == "restore_" + timestamp + "_" + stamp
      && after == tasks[id := NewTask(id, "restore", now, [])]
  {
    if !dockerUp then Failure(Http.DockerDown)
    else if !mounted then Failure(Http.QnapNotMounted)
    else
      var id := "restore_" + timestamp + "_" + stamp;
      Success((id, tasks[id := NewTask(id, "restore", now, [])]))
  }

  /** The background part of a started restore: the run is recorded in the
      task the endpoint registered. */
  function FinishRestore(tasks: TaskTable, id: string, base: string, timestamp: string, cs: seq<string>,
                         env: RestoreEnv, now: string): (after: TaskTable)
    requires id in tasks
    ensures after.Keys == tasks.Keys
    ensures forall k :: k in tasks && k != id ==> after[k] == tasks[k]
    ensures Finished(after[id])
  {
    tasks[id := RunRestore(tasks[id], base, timestamp, cs, env, now)]
  }

  /** A started restore is found pending; once run it is found finished,
      completed exactly when no component's command raised, with its start
      time kept. */
  lemma RestoreLifecycle(tasks: TaskTable, timestamp: string, stamp: string, now: string, base: string,
                         cs: seq<string>, env: RestoreEnv, later: string)
    ensures StartRestore(tasks, true, true, timestamp, stamp, now).Success?
    ensures var (id, started) := StartRestore(tasks, true, true, timestamp, stamp, now).value;
      GetTaskStatus(started, id) == Success(NewTask(id, "restore", now, []))
      && var done := FinishRestore(started, id, base, timestamp, cs, env, later);
         GetTaskStatus(done, id).Success?
         && var t := GetTaskStatus(done, id).value;
            Finished(t) && t.startedAt == now && t.completedAt == Some(later)
            && (t.status == Completed <==> forall i :: 0 <= i < |cs| ==> ComponentRuns(base, timestamp, cs[i], env))
  {
  }
}
