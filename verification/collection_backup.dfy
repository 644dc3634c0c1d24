/** The Milvus collection backup script (scripts/backup_collections.py): one
    result per configured instance, the run summary and the process exit code.
    The Milvus client and the filesystem are oracles: for each instance an
    `InstanceEnv` says whether the connection succeeds, what the collection
    listing returns, whether creating the instance directory raises, and what
    the schema export reports for each collection. */
module CollectionBackup {
  import opened Wrappers
  import opened Text

  datatype Instance = Instance(name: string, host: string, port: int)

  /** `MILVUS_INSTANCES`, in configuration order. */
  const MilvusInstances: seq<Instance> := [
    Instance("milvus-1", "localhost", 19530),
    Instance("milvus-2", "localhost", 19531),
    Instance("milvus-3", "localhost", 19532),
    Instance("milvus-4", "localhost", 19533),
    Instance("milvus-5", "localhost", 19534),
    Instance("macrochat", "localhost", 19540)]

  const QnapBackupPath := "/Volumes/QNAPBackup/milvus-backups/collections"
  /** The local fallback directory, below the user's home directory. */
  const LocalFallback := "/Desktop/QNAPBackup/backups/collections"

  const SuccessStatus := "success"
  const FailedStatus := "failed"
  const NoCollectionsMessage := "No collections found"

  /** What the outside world answers for one instance. `schema(c)` is the
      `num_entities` the schema export saved for collection `c`, or `None` when
      the export raised and returned an empty dictionary. `loaded(c)` is the
      entity count once the data export has loaded `c`, or `None` when loading
      raised; `writable(c)` is whether its info file can be written. */
  datatype InstanceEnv = InstanceEnv(
    connects: bool,
    listing: seq<string>,
    mkdirError: Option<string>,
    schema: string -> Option<int>,
    loaded: string -> Option<int>,
    writable: string -> bool)

  datatype Collected = Collected(name: string, entities: int)

  /** The result dictionary of one instance; `message` and `error` are keys that
      are present only on some paths. */
  datatype InstanceResult = InstanceResult(
    instance: string,
    host: string,
    status: string,
    collections: seq<Collected>,
    message: Option<string>,
    error: Option<string>)

  /** One instance's result, whether the connection was opened and closed,
      and what the data export of each processed collection returned. */
  datatype InstanceRun = InstanceRun(result: InstanceResult, connected: bool, disconnected: bool,
                                     exports: seq<DataOutcome>)

  function HostOf(inst: Instance): string {
    inst.host + ":" + IntToString(inst.port)
  }

  /** The result every instance starts from. */
  function Initial(inst: Instance): InstanceResult {
    InstanceResult(inst.name, HostOf(inst), FailedStatus, [], None, None)
  }

  /** One collections entry per listed name, in listing order; `entities` is 0
      when the schema export failed. */
  function CollectAll(names: seq<string>, schema: string -> Option<int>): (r: seq<Collected>)
    ensures |r| == |names|
    ensures forall i :: 0 <= i < |r| ==>
      r[i].name == names[i] && r[i].entities == schema(names[i]).GetOr(0)
    decreases |names|
  {
    if |names| == 0 then []
    else [Collected(names[0], schema(names[0]).GetOr(0))] + CollectAll(names[1..], schema)
  }

  /** The data export of every listed collection, in listing order. */
  function ExportAll(names: seq<string>, env: InstanceEnv): (r: seq<DataOutcome>)
    ensures |r| == |names|
    ensures forall i :: 0 <= i < |r| ==> r[i] == BackupCollectionData(env.loaded(names[i]), env.writable(names[i]))
    decreases |names|
  {
    if |names| == 0 then []
    else [BackupCollectionData(env.loaded(names[0]), env.writable(names[0]))] + ExportAll(names[1..], env)
  }

  /** `MilvusBackup.backup_instance`. */
  function BackupInstance(inst: Instance, env: InstanceEnv): (r: InstanceRun)
    ensures r.result.instance == inst.name && r.result.host == HostOf(inst)
    ensures r.connected == env.connects
    ensures r.disconnected <==> r.connected
    ensures !env.connects ==> r.result == Initial(inst)
    ensures r.result.status == SuccessStatus <==> env.connects && (|env.listing| == 0 || env.mkdirError.None?)
    ensures r.result.status != SuccessStatus ==> r.result.status == FailedStatus && r.result.collections == []
    ensures env.connects && |env.listing| == 0 ==>
      r.result.status == SuccessStatus && r.result.message == Some(NoCollectionsMessage) && r.result.collections == []
    ensures env.connects && |env.listing| > 0 && env.mkdirError.Some? ==>
      r.result.error == env.mkdirError
    ensures r.result.status == SuccessStatus ==>
      |r.result.collections| == |env.listing|
      && forall i :: 0 <= i < |env.listing| ==> r.result.collections[i].name == env.listing[i]
    ensures r.result.status == SuccessStatus && |env.listing| > 0 ==>
      |r.exports| == |env.listing|
      && forall i :: 0 <= i < |env.listing| ==>
           r.exports[i] == BackupCollectionData(env.loaded(env.listing[i]), env.writable(env.listing[i]))
    ensures r.result.status != SuccessStatus || |env.listing| == 0 ==> r.exports == []
  {
    var initial := Initial(inst);
    if !env.connects then InstanceRun(initial, false, false, [])
    else if |env.listing| == 0 then
      InstanceRun(initial.(status := SuccessStatus, message := Some(NoCollectionsMessage)), true, true, [])
    else
      match env.mkdirError
      case Some(e) => InstanceRun(initial.(error := Some(e)), true, true, [])
      case None =>
        InstanceRun(initial.(status := SuccessStatus, collections := CollectAll(env.listing, env.schema)), true, true,
          ExportAll(env.listing, env))
  }

  /** The instance result ignores what the data export returns: with other
      loading and writing answers the result is the same, so a collection
      whose data export fails is still reported as backed up. */
  lemma DataExportIgnored(inst: Instance, env: InstanceEnv, loaded: string -> Option<int>, writable: string -> bool)
    ensures BackupInstance(inst, env.(loaded := loaded, writable := writable)).result
            == BackupInstance(inst, env).result
    ensures var r := BackupInstance(inst, env.(loaded := loaded, writable := writable));
      r.result.status == SuccessStatus && |env.listing| > 0 ==>
        forall i :: 0 <= i < |env.listing| ==>
          r.exports[i] == BackupCollectionData(loaded(env.listing[i]), writable(env.listing[i]))
  {
  }

  /** The loop of `run_full_backup`: every configured instance in order, each
      with its own answers. */
  function RunAll(instances: seq<Instance>, env: Instance -> InstanceEnv): (r: seq<InstanceResult>)
    ensures |r| == |instances|
    ensures forall i :: 0 <= i < |r| ==> r[i] == BackupInstance(instances[i], env(instances[i])).result
    decreases |instances|
  {
    if |instances| == 0 then []
    else [BackupInstance(instances[0], env(instances[0])).result] + RunAll(instances[1..], env)
  }

  /** The dictionary `run_full_backup` returns and saves. */
  datatype RunSummary = RunSummary(backupDate: string, backupPath: string, instances: seq<InstanceResult>)

  /** `run_full_backup` over the configured instances, writing below
      `backupDir`; `now` is the clock. */
  function RunFullBackup(backupDir: string, now: string, env: Instance -> InstanceEnv): (r: RunSummary)
    ensures r.backupPath == backupDir && r.backupDate == now
    ensures |r.instances| == |MilvusInstances|
    ensures forall i :: 0 <= i < |MilvusInstances| ==> r.instances[i].instance == MilvusInstances[i].name
  {
    RunSummary(now, backupDir, RunAll(MilvusInstances, env))
  }

  /** The summary count: the sum of the per-instance collection-list lengths. */
  function TotalCollections(results: seq<InstanceResult>): nat
    decreases |results|
  {
    if |results| == 0 then 0 else |results[0].collections| + TotalCollections(results[1..])
  }

  /** How many collections an instance can contribute: those it lists, when it
      connects and its directory can be made. */
  function Found(env: InstanceEnv): nat {
    if env.connects && env.mkdirError.None? then |env.listing| else 0
  }

  function SumFound(instances: seq<Instance>, env: Instance -> InstanceEnv): nat
    decreases |instances|
  {
    if |instances| == 0 then 0 else Found(env(instances[0])) + SumFound(instances[1..], env)
  }

  /** The summary total counts exactly the collections of the instances that
      were reached. */
  lemma {:induction false} TotalIsFound(instances: seq<Instance>, env: Instance -> InstanceEnv)
    ensures TotalCollections(RunAll(instances, env)) == SumFound(instances, env)
    decreases |instances|
  {
    if |instances| > 0 {
      var r := RunAll(instances, env);
      TotalIsFound(instances[1..], env);
      assert r[1..] == RunAll(instances[1..], env);
    }
  }

  /** One instance's result depends on that instance's answers alone: a failure
      elsewhere cannot change it. */
  lemma ResultIsolated(instances: seq<Instance>, env1: Instance -> InstanceEnv,
                       env2: Instance -> InstanceEnv, i: int)
    requires 0 <= i < |instances| && env1(instances[i]) == env2(instances[i])
    ensures RunAll(instances, env1)[i] == RunAll(instances, env2)[i]
  {
  }

  /** `main`'s exit code. */
  function ExitCode(results: seq<InstanceResult>): (code: int)
    ensures code == 0 || code == 1
  {
    if forall i :: 0 <= i < |results| ==> results[i].status == SuccessStatus then 0 else 1
  }

  /** An instance whose result is a success: it connected, and either listed
      nothing or could have its directory made. */
  predicate Succeeds(env: InstanceEnv) {
    env.connects && (|env.listing| == 0 || env.mkdirError.None?)
  }

  /** The exit code is 0 exactly when every instance succeeds. */
  lemma ExitCodeZeroIff(instances: seq<Instance>, env: Instance -> InstanceEnv)
    ensures ExitCode(RunAll(instances, env)) == 0 <==>
      forall i :: 0 <= i < |instances| ==> Succeeds(env(instances[i]))
  {
    var r := RunAll(instances, env);
    if ExitCode(r) == 0 {
      forall i | 0 <= i < |instances| ensures Succeeds(env(instances[i])) {
        assert r[i].status == SuccessStatus;
      }
    }
  }

  /** `main`: the backup directory is on the QNAP share when it is mounted, and
      below the home directory otherwise. */
  function BackupPath(qnapExists: bool, home: string): (p: string)
    ensures qnapExists ==> p == QnapBackupPath
    ensures !qnapExists ==> IsPrefix(home, p)
  {
    if qnapExists then QnapBackupPath else home + LocalFallback
  }

  /** The directory of one run: `backup_<stamp>` below the backup path. */
  function BackupDir(path: string, stamp: string): string {
    path + "/backup_" + stamp
  }

  /** `backup_collection_data` for a collection holding `entities` entities
      (`None` when loading raised); `writable` is whether the info file can be
      written. */
  datatype DataOutcome = DataOutcome(ok: bool, written: bool)

  function BackupCollectionData(entities: Option<int>, writable: bool): (r: DataOutcome)
    ensures entities == Some(0) ==> r == DataOutcome(true, false)
    ensures r.written ==> r.ok && entities.Some? && entities.value != 0
    ensures r.ok <==> entities == Some(0) || (entities.Some? && writable)
  {
    match entities
    case None => DataOutcome(false, false)
    case Some(n) =>
      if n == 0 then DataOutcome(true, false)
      else if writable then DataOutcome(true, true)
      else DataOutcome(false, false)
  }

  /** `main`: backs up every configured instance below `backup_<stamp>` of the
      chosen path and returns the process exit code. */
  function RunMain(qnapExists: bool, home: string, stamp: string, now: string,
                env: Instance -> InstanceEnv): (code: int)
    ensures code == 0 <==> forall i :: 0 <= i < |MilvusInstances| ==> Succeeds(env(MilvusInstances[i]))
  {
    var summary := RunFullBackup(BackupDir(BackupPath(qnapExists, home), stamp), now, env);
    ExitCodeZeroIff(MilvusInstances, env);
    ExitCode(summary.instances)
  }
}
