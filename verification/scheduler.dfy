/** `BackupScheduler` (backend/scheduler.py): the registry of schedules keyed by
    id, its public operations, the execution of one scheduled backup, and the
    statistics view. APScheduler's job store, the JSON file and the clock are
    outside the model: the caller passes the current time, fresh ids, and a
    `nextFire` function standing for the triggers. */
module Scheduler {
  import opened Wrappers
  import opened Seqs
  import opened Text
  import opened Ordering
  import opened Schedules
  import History

  datatype BackupScheduler = BackupScheduler(
    schedules: map<string, ScheduleConfig>,
    history: History.ScheduleHistory,
    running: bool)

  /** Every schedule is stored under its own id. */
  predicate KeyedById(m: map<string, ScheduleConfig>) {
    forall k :: k in m ==> m[k].id == k
  }

  /** Every schedule is stored under its own id, and the history is within its bound. */
  predicate Valid(st: BackupScheduler) {
    KeyedById(st.schedules) && History.Valid(st.history)
  }

  // ---------------------------------------------------------------------
  // create / update / delete / pause / resume
  // ---------------------------------------------------------------------

  datatype Created = Created(after: BackupScheduler, schedule: ScheduleConfig)

  /** `create_schedule`: stamps the new id and the creation time onto the
      dictionary, converts it, computes `next_run`, and stores the schedule.
      A `ValueError` from the conversion leaves the registry untouched. */
  function CreateSchedule(st: BackupScheduler, config: ScheduleDict, newId: string, now: string,
                          nextFire: Timing -> Option<string>): (r: Result<Created, string>)
    ensures r.Failure? <==> ParseType(config.scheduleType).None? || ParseStatus(config.status).None?
    ensures r.Success? ==>
      ToDict(r.value.schedule)
        == config.(id := newId, createdAt := now, updatedAt := now, nextRun := r.value.schedule.nextRun)
    ensures r.Success? ==> NextRunCurrent(r.value.schedule, nextFire)
    ensures r.Success? ==> r.value.after == st.(schedules := st.schedules[newId := r.value.schedule])
  {
    var s :- FromDict(config.(id := newId, createdAt := now, updatedAt := now));
    var s1 := s.(nextRun := CalculateNextRun(s, nextFire));
    Success(Created(st.(schedules := st.schedules[newId := s1]), s1))
  }

  lemma CreatePreservesValid(st: BackupScheduler, config: ScheduleDict, newId: string, now: string,
                             nextFire: Timing -> Option<string>)
    requires Valid(st) && CreateSchedule(st, config, newId, now, nextFire).Success?
    ensures Valid(CreateSchedule(st, config, newId, now, nextFire).value.after)
  {
    var c := CreateSchedule(st, config, newId, now, nextFire).value;
    assert ToDict(c.schedule).id == newId;
  }

  datatype UpdateOutcome = NotFound | Updated(schedule: ScheduleConfig) | Raised(message: string)

  datatype UpdateResult = UpdateResult(after: BackupScheduler, outcome: UpdateOutcome)

  /** `update_schedule`: applies the entries in order; when one raises, the
      schedule keeps the entries set before it and nothing else happens;
      otherwise `updated_at` and `next_run` are refreshed. */
  function UpdateSchedule(st: BackupScheduler, id: string, ups: seq<FieldUpdate>, now: string,
                          nextFire: Timing -> Option<string>): (r: UpdateResult)
    ensures r.outcome.NotFound? <==> id !in st.schedules
    ensures id !in st.schedules ==> r.after == st
    ensures r.after.history == st.history && r.after.running == st.running
    ensures r.after.schedules.Keys == st.schedules.Keys
    ensures forall k :: k in st.schedules && k != id ==> r.after.schedules[k] == st.schedules[k]
    ensures id in st.schedules ==>
      r.after.schedules[id].id == st.schedules[id].id
      && r.after.schedules[id].createdAt == st.schedules[id].createdAt
    ensures r.outcome.Raised? <==> id in st.schedules && exists i :: 0 <= i < |ups| && Rejects(ups[i])
    ensures r.outcome.Updated? ==>
      r.outcome.schedule == r.after.schedules[id] && r.outcome.schedule.updatedAt == now
      && NextRunCurrent(r.outcome.schedule, nextFire)
  {
    if id !in st.schedules then UpdateResult(st, NotFound)
    else
      var applied := ApplyFields(st.schedules[id], ups);
      match applied.error
      case Some(e) => UpdateResult(st.(schedules := st.schedules[id := applied.config]), Raised(e))
      case None =>
        var s := applied.config.(updatedAt := now);
        var s1 := s.(nextRun := CalculateNextRun(s, nextFire));
        UpdateResult(st.(schedules := st.schedules[id := s1]), Updated(s1))
  }

  lemma UpdatePreservesValid(st: BackupScheduler, id: string, ups: seq<FieldUpdate>, now: string,
                             nextFire: Timing -> Option<string>)
    requires Valid(st)
    ensures Valid(UpdateSchedule(st, id, ups, now, nextFire).after)
  {
  }

  /** A field no entry names keeps its value; after a completed update that
      excludes `updated_at` and `next_run`, which are always refreshed. */
  lemma UpdateKeepsUnnamed(st: BackupScheduler, id: string, ups: seq<FieldUpdate>, now: string,
                           nextFire: Timing -> Option<string>, f: Field)
    requires id in st.schedules && !Mentioned(ups, f)
    requires UpdateSchedule(st, id, ups, now, nextFire).outcome.Raised?
             || (f != UpdatedAtField && f != NextRunField)
    ensures Agree(st.schedules[id], UpdateSchedule(st, id, ups, now, nextFire).after.schedules[id], f)
  {
    ApplyFieldsFrame(st.schedules[id], ups, f);
  }

  /** After a completed update, each field named by an entry (other than the two
      the update refreshes itself) holds the value of the last entry naming it. */
  lemma UpdateSetsNamed(st: BackupScheduler, id: string, ups: seq<FieldUpdate>, now: string,
                        nextFire: Timing -> Option<string>, i: int)
    requires id in st.schedules && UpdateSchedule(st, id, ups, now, nextFire).outcome.Updated?
    requires 0 <= i < |ups| && LastFor(ups, i)
    requires FieldOf(ups[i]) != Some(UpdatedAtField) && FieldOf(ups[i]) != Some(NextRunField)
    ensures Reflects(UpdateSchedule(st, id, ups, now, nextFire).after.schedules[id], ups[i])
  {
    var applied := ApplyFields(st.schedules[id], ups);
    ApplyFieldsLastWins(st.schedules[id], ups, i);
    ReflectsAgree(applied.config, UpdateSchedule(st, id, ups, now, nextFire).after.schedules[id], ups[i]);
  }

  /** `pause_schedule`. */
  function PauseSchedule(st: BackupScheduler, id: string, now: string, nextFire: Timing -> Option<string>)
    : (r: UpdateResult)
    ensures id !in st.schedules ==> r == UpdateResult(st, NotFound)
    ensures id in st.schedules ==>
      r.outcome.Updated? && r.outcome.schedule.status == Paused && r.outcome.schedule.updatedAt == now
  {
    UpdateSchedule(st, id, [SetStatus(StatusName(Paused))], now, nextFire)
  }

  /** `resume_schedule`. */
  function ResumeSchedule(st: BackupScheduler, id: string, now: string, nextFire: Timing -> Option<string>)
    : (r: UpdateResult)
    ensures id !in st.schedules ==> r == UpdateResult(st, NotFound)
    ensures id in st.schedules ==>
      r.outcome.Updated? && r.outcome.schedule.status == Active && r.outcome.schedule.updatedAt == now
  {
    UpdateSchedule(st, id, [SetStatus(StatusName(Active))], now, nextFire)
  }

  /** Setting the status alone: the result of one `SetStatus` entry. */
  lemma SetStatusResult(st: BackupScheduler, id: string, status: ScheduleStatus, now: string,
                        nextFire: Timing -> Option<string>)
    requires id in st.schedules
    ensures var c := st.schedules[id];
            UpdateSchedule(st, id, [SetStatus(StatusName(status))], now, nextFire).after.schedules[id]
              == c.(status := status, updatedAt := now, nextRun := CalculateNextRun(c.(status := status), nextFire))
  {
    var c := st.schedules[id];
    var ups := [SetStatus(StatusName(status))];
    assert ApplyField(c, ups[0]) == Success(c.(status := status)) by {
      match status {
        case Active =>
        case Paused =>
        case Disabled =>
      }
    }
    assert ApplyFields(c.(status := status), ups[1..]) == Applied(c.(status := status), None);
  }

  /** Pausing an active schedule and resuming it later restores every field
      but `updated_at` and `next_run`. The resumed `next_run` is what
      `_calculate_next_run` answers at the resume, which reads the clock; it is
      the old value exactly when that answer has not moved, as for a once
      schedule whose `next_run` is its run date. */
  lemma PauseResumeRoundTrip(st: BackupScheduler, id: string, t1: string, t2: string,
                             fireAtPause: Timing -> Option<string>, fireAtResume: Timing -> Option<string>)
    requires id in st.schedules && st.schedules[id].status == Active
    ensures var c := st.schedules[id];
            var mid := PauseSchedule(st, id, t1, fireAtPause).after;
            ResumeSchedule(mid, id, t2, fireAtResume).after.schedules
              == st.schedules[id := c.(updatedAt := t2, nextRun := CalculateNextRun(c, fireAtResume))]
    ensures var mid := PauseSchedule(st, id, t1, fireAtPause).after;
            NextRunCurrent(st.schedules[id], fireAtResume) ==>
              ResumeSchedule(mid, id, t2, fireAtResume).after.schedules
                == st.schedules[id := st.schedules[id].(updatedAt := t2)]
  {
    var c := st.schedules[id];
    var mid := PauseSchedule(st, id, t1, fireAtPause).after;
    SetStatusResult(st, id, Paused, t1, fireAtPause);
    SetStatusResult(mid, id, Active, t2, fireAtResume);
    var fin := ResumeSchedule(mid, id, t2, fireAtResume).after;
    assert TimingOf(mid.schedules[id].(status := Active)) == TimingOf(c);
    assert fin.schedules[id] == c.(updatedAt := t2, nextRun := CalculateNextRun(c, fireAtResume));
  }

  datatype Deleted = Deleted(found: bool, after: BackupScheduler)

  /** `delete_schedule`. */
  function DeleteSchedule(st: BackupScheduler, id: string): (r: Deleted)
    ensures r.found <==> id in st.schedules
    ensures r.after.schedules.Keys == st.schedules.Keys - {id}
    ensures forall k :: k in r.after.schedules ==> r.after.schedules[k] == st.schedules[k]
    ensures r.after.history == st.history && r.after.running == st.running
  {
    if id !in st.schedules then Deleted(false, st)
    else Deleted(true, st.(schedules := st.schedules - {id}))
  }

  /** Deleting a freshly created schedule restores the registry. */
  lemma CreateThenDelete(st: BackupScheduler, config: ScheduleDict, newId: string, now: string,
                         nextFire: Timing -> Option<string>)
    requires newId !in st.schedules && CreateSchedule(st, config, newId, now, nextFire).Success?
    ensures DeleteSchedule(CreateSchedule(st, config, newId, now, nextFire).value.after, newId)
              == Deleted(true, st)
  {
    var after := CreateSchedule(st, config, newId, now, nextFire).value.after;
    assert after.schedules - {newId} == st.schedules;
  }

  /** `get_schedule`. */
  function GetSchedule(st: BackupScheduler, id: string): (r: Option<ScheduleConfig>)
    requires Valid(st)
    ensures r.Some? <==> id in st.schedules
    ensures r.Some? ==> r.value.id == id && r.value == st.schedules[id]
  {
    if id in st.schedules then Some(st.schedules[id]) else None
  }

  // ---------------------------------------------------------------------
  // _execute_scheduled_backup
  // ---------------------------------------------------------------------

  /** What one awaited call of the backup callback did. */
  datatype CallOutcome = Completed | Threw(message: string)

  /** The backup types the callback was called with, in order, and how the
      calls ended. */
  datatype Invocation = Invocation(calls: seq<string>, outcome: CallOutcome)

  /** The sequential loop: one call per type, stopping at the first that raises. */
  function InvokeInOrder(types: seq<string>, scheduleId: string, callback: (string, string) -> CallOutcome)
    : (r: Invocation)
    ensures |r.calls| <= |types| && r.calls == types[..|r.calls|]
    ensures r.outcome.Completed? <==> forall i :: 0 <= i < |types| ==> callback(types[i], scheduleId).Completed?
    ensures r.outcome.Completed? ==> r.calls == types
    ensures r.outcome.Threw? ==>
      |r.calls| > 0 && r.outcome == callback(r.calls[|r.calls| - 1], scheduleId)
      && forall i :: 0 <= i < |r.calls| - 1 ==> callback(r.calls[i], scheduleId).Completed?
    decreases |types|
  {
    if |types| == 0 then Invocation([], Completed)
    else
      match callback(types[0], scheduleId)
      case Threw(m) => Invocation([types[0]], Threw(m))
      case Completed =>
        var rest := InvokeInOrder(types[1..], scheduleId, callback);
        assert forall i :: 1 <= i < |types| ==> types[i] == types[1..][i - 1];
        Invocation([types[0]] + rest.calls, rest.outcome)
  }

  /** Python's message for indexing an empty list. */
  const IndexErrorMessage: string := "list index out of range"

  /** The body of the `try`: without a callback nothing is called; a
      sequential schedule calls it per type; otherwise only the first type is
      called, and an empty list raises `IndexError`. */
  function Invoke(s: ScheduleConfig, scheduleId: string, callback: Option<(string, string) -> CallOutcome>)
    : (r: Invocation)
    ensures callback.None? ==> r == Invocation([], Completed)
    ensures |r.calls| <= |s.backupTypes| && r.calls == s.backupTypes[..|r.calls|]
    ensures !s.sequentialExecution ==> |r.calls| <= 1
    ensures callback.Some? && s.sequentialExecution ==>
      (r.outcome.Completed? <==>
        forall i :: 0 <= i < |s.backupTypes| ==> callback.value(s.backupTypes[i], scheduleId).Completed?)
    ensures callback.Some? && !s.sequentialExecution ==>
      (r.outcome.Completed? <==>
        |s.backupTypes| > 0 && callback.value(s.backupTypes[0], scheduleId).Completed?)
    ensures callback.Some? && !s.sequentialExecution && |s.backupTypes| == 0 ==>
      r.outcome == Threw(IndexErrorMessage)
  {
    match callback
    case None => Invocation([], Completed)
    case Some(cb) =>
      if s.sequentialExecution then InvokeInOrder(s.backupTypes, scheduleId, cb)
      else if |s.backupTypes| == 0 then Invocation([], Threw(IndexErrorMessage))
      else Invocation([s.backupTypes[0]], cb(s.backupTypes[0], scheduleId))
  }

  const SuccessStatus: string := "success"
  const FailedStatus: string := "failed"
  const SuccessMessage: string := "Backup completado correctamente"

  /** The three early returns: unknown id, a schedule that is not active, and
      a backup already running. */
  predicate CanStart(st: BackupScheduler, id: string) {
    id in st.schedules && st.schedules[id].status == Active && !st.running
  }

  /** `s1` is `s0` after a successful run: run statistics and `next_run` updated. */
  predicate RecordsSuccess(s0: ScheduleConfig, s1: ScheduleConfig, now: string, nextFire: Timing -> Option<string>) {
    s1 == s0.(lastRun := Some(now), runCount := s0.runCount + 1, lastStatus := Some(SuccessStatus),
              nextRun := s1.nextRun)
    && NextRunCurrent(s1, nextFire)
  }

  /** `s1` is `s0` after a failed run: only `last_status` changed. */
  predicate RecordsFailure(s0: ScheduleConfig, s1: ScheduleConfig) {
    s1 == s0.(lastStatus := Some(FailedStatus))
  }

  datatype Execution = Execution(after: BackupScheduler, calls: seq<string>)

  /** `_execute_scheduled_backup(schedule_id)`. The callback's calls happen
      while `running` is set; `entryId` is the history entry's random id. */
  function ExecuteScheduled(st: BackupScheduler, id: string, callback: Option<(string, string) -> CallOutcome>,
                            entryId: string, now: string, nextFire: Timing -> Option<string>): (r: Execution)
    ensures !CanStart(st, id) ==> r == Execution(st, [])
    ensures CanStart(st, id) ==>
      !r.after.running && r.after.schedules.Keys == st.schedules.Keys
      && forall k :: k in st.schedules && k != id ==> r.after.schedules[k] == st.schedules[k]
    ensures CanStart(st, id) ==> r.calls == Invoke(st.schedules[id], id, callback).calls
    ensures CanStart(st, id) && Invoke(st.schedules[id], id, callback).outcome.Completed? ==>
      var s := st.schedules[id];
      RecordsSuccess(s, r.after.schedules[id], now, nextFire)
      && r.after.history == History.Add(st.history,
           History.Entry(entryId, id, s.name, s.backupTypes, SuccessStatus, SuccessMessage, now))
    ensures CanStart(st, id) && Invoke(st.schedules[id], id, callback).outcome.Threw? ==>
      var s := st.schedules[id];
      RecordsFailure(s, r.after.schedules[id])
      && r.after.history == History.Add(st.history,
           History.Entry(entryId, id, s.name, s.backupTypes, FailedStatus,
             Invoke(s, id, callback).outcome.message, now))
  {
    if !CanStart(st, id) then Execution(st, [])
    else
      var s := st.schedules[id];
      var inv := Invoke(s, id, callback);
      match inv.outcome
      case Completed =>
        var s0 := s.(lastRun := Some(now), runCount := s.runCount + 1, lastStatus := Some(SuccessStatus));
        var s1 := s0.(nextRun := CalculateNextRun(s0, nextFire));
        var h := History.Add(st.history,
          History.Entry(entryId, id, s.name, s.backupTypes, SuccessStatus, SuccessMessage, now));
        Execution(BackupScheduler(st.schedules[id := s1], h, false), inv.calls)
      case Threw(m) =>
        var h := History.Add(st.history,
          History.Entry(entryId, id, s.name, s.backupTypes, FailedStatus, m, now));
        Execution(BackupScheduler(st.schedules[id := s.(lastStatus := Some(FailedStatus))], h, false),
          inv.calls)
  }

  lemma ExecutePreservesValid(st: BackupScheduler, id: string, callback: Option<(string, string) -> CallOutcome>,
                              entryId: string, now: string, nextFire: Timing -> Option<string>)
    requires Valid(st)
    ensures Valid(ExecuteScheduled(st, id, callback, entryId, now, nextFire).after)
  {
  }

  /** A run leaves the schedule's status alone: in particular a ONCE schedule
      stays active after it has fired, may be run again, and its next run is
      again its run date (after a failed run `next_run` is not recomputed). */
  lemma OnceStaysActive(st: BackupScheduler, id: string, callback: Option<(string, string) -> CallOutcome>,
                        entryId: string, now: string, nextFire: Timing -> Option<string>)
    requires CanStart(st, id) && st.schedules[id].scheduleType == Once
    ensures var after := ExecuteScheduled(st, id, callback, entryId, now, nextFire).after;
            CanStart(after, id) && after.schedules[id].scheduleType == Once
            && (Invoke(st.schedules[id], id, callback).outcome.Completed? ==>
                  after.schedules[id].nextRun == st.schedules[id].runDate)
            && (Invoke(st.schedules[id], id, callback).outcome.Threw? ==>
                  after.schedules[id].nextRun == st.schedules[id].nextRun)
  {
  }

  datatype RunNowResult = RunNowResult(started: bool, execution: Execution)

  /** `run_now`: reports whether the id exists and, if so, schedules one
      execution, modelled here as taking place at once. */
  function RunNow(st: BackupScheduler, id: string, callback: Option<(string, string) -> CallOutcome>,
                  entryId: string, now: string, nextFire: Timing -> Option<string>): (r: RunNowResult)
    ensures r.started <==> id in st.schedules
    ensures !r.started ==> r.execution == Execution(st, [])
    ensures r.started ==> r.execution == ExecuteScheduled(st, id, callback, entryId, now, nextFire)
  {
    if id in st.schedules then RunNowResult(true, ExecuteScheduled(st, id, callback, entryId, now, nextFire))
    else RunNowResult(false, Execution(st, []))
  }

  /** `run_now` on a paused or disabled schedule reports success but changes nothing. */
  lemma RunNowInactiveIsSilent(st: BackupScheduler, id: string, callback: Option<(string, string) -> CallOutcome>,
                               entryId: string, now: string, nextFire: Timing -> Option<string>)
    requires id in st.schedules && st.schedules[id].status != Active
    ensures RunNow(st, id, callback, entryId, now, nextFire) == RunNowResult(true, Execution(st, []))
  {
  }

  // ---------------------------------------------------------------------
  // get_stats
  // ---------------------------------------------------------------------

  datatype UpcomingRun = UpcomingRun(id: string, name: string, nextRun: string, backupTypes: seq<string>)

  datatype Stats = Stats(
    totalSchedules: int,
    active: int,
    paused: int,
    disabled: int,
    schedulerRunning: bool,
    upcomingRuns: seq<UpcomingRun>,
    recentHistory: seq<History.Entry>)

  /** Listed under upcoming runs: active with a non-empty `next_run`. */
  predicate IsUpcoming(s: ScheduleConfig) {
    s.status == Active && s.nextRun.Some? && s.nextRun.value != ""
  }

  function UpcomingOf(s: ScheduleConfig): UpcomingRun
    requires IsUpcoming(s)
  {
    UpcomingRun(s.id, s.name, s.nextRun.value, s.backupTypes)
  }

  function NextRunKey(u: UpcomingRun): string {
    u.nextRun
  }

  function IdsWithStatus(m: map<string, ScheduleConfig>, status: ScheduleStatus): set<string> {
    set k | k in m && m[k].status == status
  }

  function UpcomingIds(m: map<string, ScheduleConfig>): set<string> {
    set k | k in m && IsUpcoming(m[k])
  }

  /** The registry's keys in some order, each once. */
  method KeysOf<V>(m: map<string, V>) returns (ks: seq<string>)
    ensures Distinct(ks)
    ensures forall k :: k in ks <==> k in m
  {
    ks := [];
    var rest := m.Keys;
    while rest != {}
      invariant rest <= m.Keys
      invariant Distinct(ks)
      invariant forall k :: k in ks <==> k in m && k !in rest
      decreases |rest|
    {
      var k :| k in rest;
      ks := ks + [k];
      rest := rest - {k};
    }
  }

  /** Number of keys of `ks` whose schedule has `status`. */
  function CountStatus(ks: seq<string>, m: map<string, ScheduleConfig>, status: ScheduleStatus): (n: nat)
    requires forall k :: k in ks ==> k in m
    ensures n <= |ks|
    decreases |ks|
  {
    if |ks| == 0 then 0
    else (if m[ks[0]].status == status then 1 else 0) + CountStatus(ks[1..], m, status)
  }

  /** The upcoming-run records of the keys in `ks`, in the order of `ks`. */
  function UpcomingList(ks: seq<string>, m: map<string, ScheduleConfig>): (r: seq<UpcomingRun>)
    requires forall k :: k in ks ==> k in m
    ensures |r| <= |ks|
    decreases |ks|
  {
    if |ks| == 0 then []
    else if IsUpcoming(m[ks[0]]) then [UpcomingOf(m[ks[0]])] + UpcomingList(ks[1..], m)
    else UpcomingList(ks[1..], m)
  }

  /** Counting over distinct keys counts the set of matching keys. */
  lemma {:induction false} CountStatusCard(ks: seq<string>, m: map<string, ScheduleConfig>, status: ScheduleStatus)
    requires Distinct(ks) && forall k :: k in ks ==> k in m
    ensures CountStatus(ks, m, status) == |set k | k in ks && m[k].status == status|
    decreases |ks|
  {
    if |ks| > 0 {
      DistinctTail(ks);
      CountStatusCard(ks[1..], m, status);
      MatchingKeysSplit(ks, m, status);
    }
  }

  /** The matching keys of `ks` are those of its tail, plus its head when that matches. */
  lemma MatchingKeysSplit(ks: seq<string>, m: map<string, ScheduleConfig>, status: ScheduleStatus)
    requires |ks| > 0 && forall k :: k in ks ==> k in m
    ensures var rest := set k | k in ks[1..] && m[k].status == status;
      (set k | k in ks && m[k].status == status)
        == if m[ks[0]].status == status then rest + {ks[0]} else rest
  {
    assert forall k :: k in ks <==> k == ks[0] || k in ks[1..] by {
      assert ks == [ks[0]] + ks[1..];
    }
  }

  /** The statuses partition the keys. */
  lemma {:induction false} CountStatusSum(ks: seq<string>, m: map<string, ScheduleConfig>)
    requires forall k :: k in ks ==> k in m
    ensures CountStatus(ks, m, Active) + CountStatus(ks, m, Paused) + CountStatus(ks, m, Disabled) == |ks|
    decreases |ks|
  {
    if |ks| > 0 {
      CountStatusSum(ks[1..], m);
    }
  }

  /** Each record of `UpcomingList` belongs to a key of `ks` that is upcoming, and back. */
  lemma {:induction false} UpcomingListMembers(ks: seq<string>, m: map<string, ScheduleConfig>, u: UpcomingRun)
    requires forall k :: k in ks ==> k in m
    ensures u in UpcomingList(ks, m) <==> exists k :: k in ks && IsUpcoming(m[k]) && u == UpcomingOf(m[k])
    decreases |ks|
  {
    if |ks| > 0 {
      UpcomingListMembers(ks[1..], m, u);
      assert forall k :: k in ks <==> k == ks[0] || k in ks[1..];
    }
  }

  /** Over distinct keys whose schedules are stored under their own ids, the
      list has one record per upcoming key. */
  lemma {:induction false} UpcomingListCard(ks: seq<string>, m: map<string, ScheduleConfig>)
    requires Distinct(ks) && forall k :: k in ks ==> k in m
    ensures |UpcomingList(ks, m)| == |set k | k in ks && IsUpcoming(m[k])|
    decreases |ks|
  {
    if |ks| > 0 {
      var tail := ks[1..];
      assert Distinct(tail) by {
        forall i, j | 0 <= i < j < |tail| ensures tail[i] != tail[j] {
          assert tail[i] == ks[i + 1] && tail[j] == ks[j + 1];
        }
      }
      UpcomingListCard(tail, m);
      var all := set k | k in ks && IsUpcoming(m[k]);
      var rest := set k | k in tail && IsUpcoming(m[k]);
      assert ks[0] !in tail by {
        forall j | 0 <= j < |tail| ensures tail[j] != ks[0] {
          assert tail[j] == ks[j + 1];
        }
      }
      if IsUpcoming(m[ks[0]]) {
        assert all == rest + {ks[0]};
      } else {
        assert all == rest;
      }
    }
  }

  /** The counts `get_stats` reports, over the keys in some order. */
  lemma StatusCounts(m: map<string, ScheduleConfig>, ks: seq<string>)
    requires Distinct(ks) && forall k :: k in ks <==> k in m
    ensures |ks| == |m|
    ensures CountStatus(ks, m, Active) == |IdsWithStatus(m, Active)|
    ensures CountStatus(ks, m, Paused) == |IdsWithStatus(m, Paused)|
    ensures |ks| - CountStatus(ks, m, Active) - CountStatus(ks, m, Paused) == |IdsWithStatus(m, Disabled)|
  {
    assert (set k | k in ks) == m.Keys;
    DistinctCard(ks);
    CountStatusSum(ks, m);
    CountStatusCard(ks, m, Active);
    CountStatusCard(ks, m, Paused);
    CountStatusCard(ks, m, Disabled);
    assert (set k | k in ks && m[k].status == Active) == IdsWithStatus(m, Active);
    assert (set k | k in ks && m[k].status == Paused) == IdsWithStatus(m, Paused);
    assert (set k | k in ks && m[k].status == Disabled) == IdsWithStatus(m, Disabled);
  }

  /** The records sorted by `next_run`: one per upcoming schedule, in order. */
  lemma UpcomingSorted(m: map<string, ScheduleConfig>, ks: seq<string>)
    requires Distinct(ks) && forall k :: k in ks <==> k in m
    ensures var sorted := SortBy(UpcomingList(ks, m), NextRunKey, false);
      |sorted| == |UpcomingIds(m)|
      && (forall u :: u in sorted <==> exists k :: k in UpcomingIds(m) && u == UpcomingOf(m[k]))
  {
    var runs := UpcomingList(ks, m);
    UpcomingListCard(ks, m);
    assert (set k | k in ks && IsUpcoming(m[k])) == UpcomingIds(m);
    var sorted := SortBy(runs, NextRunKey, false);
    assert |sorted| == |runs| by {
      assert |multiset(sorted)| == |multiset(runs)|;
    }
    forall u
      ensures u in sorted <==> exists k :: k in UpcomingIds(m) && u == UpcomingOf(m[k])
    {
      assert u in sorted <==> u in multiset(sorted);
      assert u in runs <==> u in multiset(runs);
      UpcomingListMembers(ks, m, u);
    }
  }

  /** Over distinct keys of a registry keyed by id, no upcoming run is listed twice. */
  lemma {:induction false} UpcomingListDistinct(ks: seq<string>, m: map<string, ScheduleConfig>)
    requires Distinct(ks) && (forall k :: k in ks ==> k in m) && KeyedById(m)
    ensures Distinct(UpcomingList(ks, m))
    decreases |ks|
  {
    if |ks| > 0 {
      var tail := ks[1..];
      DistinctTail(ks);
      UpcomingListDistinct(tail, m);
      var rest := UpcomingList(tail, m);
      if IsUpcoming(m[ks[0]]) {
        var r := UpcomingList(ks, m);
        assert r == [UpcomingOf(m[ks[0]])] + rest;
        forall j | 0 < j < |r| ensures r[0] != r[j] {
          assert r[j] == rest[j - 1] && rest[j - 1] in rest;
          UpcomingListMembers(tail, m, rest[j - 1]);
          var k :| k in tail && IsUpcoming(m[k]) && rest[j - 1] == UpcomingOf(m[k]);
          var b :| 0 <= b < |tail| && tail[b] == k;
          assert ks[b + 1] == k;
        }
      }
    }
  }

  /** Taking the first `n` of a sorted list keeps the earliest: anything left
      out comes no earlier than everything kept. */
  lemma PrefixOfSortedIsEarliest(sorted: seq<UpcomingRun>, n: int, u: UpcomingRun)
    requires SortedBy(sorted, NextRunKey, false) && u in sorted
    ensures var shown := PyPrefix(sorted, n);
      u in shown || forall i :: 0 <= i < |shown| ==> StrLe(shown[i].nextRun, u.nextRun)
  {
    var shown := PyPrefix(sorted, n);
    var j :| 0 <= j < |sorted| && sorted[j] == u;
    if j >= |shown| {
      forall i | 0 <= i < |shown| ensures StrLe(shown[i].nextRun, u.nextRun) {
        assert shown[i] == sorted[i];
        assert InOrder(sorted[i], sorted[j], NextRunKey, false);
      }
    } else {
      assert shown[j] == u;
    }
  }

  /** `shown` lists the `n` earliest upcoming runs of `m`: as many as there
      are (up to `n`), ascending by `next_run`, each belonging to an upcoming
      schedule, no upcoming schedule left out runs before a listed one, and,
      when every schedule is stored under its own id, none is listed twice. */
  predicate EarliestUpcoming(m: map<string, ScheduleConfig>, shown: seq<UpcomingRun>, n: nat) {
    |shown| == Min(n, |UpcomingIds(m)|)
    && (KeyedById(m) ==> Distinct(shown))
    && SortedBy(shown, NextRunKey, false)
    && (forall i :: 0 <= i < |shown| ==> exists k :: k in UpcomingIds(m) && shown[i] == UpcomingOf(m[k]))
    && (forall k :: k in UpcomingIds(m) ==>
          UpcomingOf(m[k]) in shown || forall i :: 0 <= i < |shown| ==> StrLe(shown[i].nextRun, m[k].nextRun.value))
  }

  lemma ShownAreEarliest(m: map<string, ScheduleConfig>, ks: seq<string>, n: nat)
    requires Distinct(ks) && forall k :: k in ks <==> k in m
    ensures EarliestUpcoming(m, PyPrefix(SortBy(UpcomingList(ks, m), NextRunKey, false), n), n)
  {
    var sorted := SortBy(UpcomingList(ks, m), NextRunKey, false);
    UpcomingSorted(m, ks);
    var shown := PyPrefix(sorted, n);
    forall i | 0 <= i < |shown|
      ensures exists k :: k in UpcomingIds(m) && shown[i] == UpcomingOf(m[k])
    {
      assert shown[i] == sorted[i] && sorted[i] in sorted;
    }
    forall k | k in UpcomingIds(m)
      ensures UpcomingOf(m[k]) in shown
              || forall i :: 0 <= i < |shown| ==> StrLe(shown[i].nextRun, m[k].nextRun.value)
    {
      PrefixOfSortedIsEarliest(sorted, n, UpcomingOf(m[k]));
    }
    if KeyedById(m) {
      UpcomingListDistinct(ks, m);
      PermutationDistinct(UpcomingList(ks, m), sorted);
      assert Distinct(shown) by {
        forall i, j | 0 <= i < j < |shown| ensures shown[i] != shown[j] {
          assert shown[i] == sorted[i] && shown[j] == sorted[j];
        }
      }
    }
    assert SortedBy(shown, NextRunKey, false) by {
      forall i, j | 0 <= i < j < |shown| ensures InOrder(shown[i], shown[j], NextRunKey, false) {
        assert shown[i] == sorted[i] && shown[j] == sorted[j];
      }
    }
  }

  /** `get_stats`: counts by status, the five earliest upcoming runs, and the
      five newest history entries. `schedulerRunning` is APScheduler's own
      running flag. */
  method GetStats(st: BackupScheduler, schedulerRunning: bool) returns (stats: Stats)
    ensures stats.totalSchedules == |st.schedules|
    ensures stats.active == |IdsWithStatus(st.schedules, Active)|
    ensures stats.paused == |IdsWithStatus(st.schedules, Paused)|
    ensures stats.disabled == |IdsWithStatus(st.schedules, Disabled)|
    ensures stats.schedulerRunning == schedulerRunning
    ensures EarliestUpcoming(st.schedules, stats.upcomingRuns, 5)
    ensures stats.recentHistory == History.GetRecent(st.history, 5)
  {
    var m := st.schedules;
    var ks := KeysOf(m);
    var total := |ks|;
    var active := CountStatus(ks, m, Active);
    var paused := CountStatus(ks, m, Paused);
    StatusCounts(m, ks);
    var upcoming := SortBy(UpcomingList(ks, m), NextRunKey, false);
    ShownAreEarliest(m, ks, 5);
    stats := Stats(total, active, paused, total - active - paused, schedulerRunning, PyPrefix(upcoming, 5),
      History.GetRecent(st.history, 5));
  }

  /** A sequence without repeats has as many elements as its set. */
  lemma {:induction false} DistinctCard(ks: seq<string>)
    requires Distinct(ks)
    ensures |set k | k in ks| == |ks|
    decreases |ks|
  {
    if |ks| > 0 {
      var tail := ks[1..];
      DistinctTail(ks);
      DistinctCard(tail);
      assert (set k | k in ks) == (set k | k in tail) + {ks[0]};
    }
  }
}
