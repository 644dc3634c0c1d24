/** The schedule record of the backup scheduler (`ScheduleConfig` in
    backend/scheduler.py), its dictionary form, and the field-by-field update
    that `update_schedule` performs. */
module Schedules {
  import opened Wrappers
  import Text
  import Repr

  datatype ScheduleType = Cron | Interval | Daily | Weekly | Monthly | Once

  datatype ScheduleStatus = Active | Paused | Disabled

  function TypeName(t: ScheduleType): string {
    match t
    case Cron => "cron"
    case Interval => "interval"
    case Daily => "daily"
    case Weekly => "weekly"
    case Monthly => "monthly"
    case Once => "once"
  }

  /** `ScheduleType(s)`: the member whose value is `s`, or `None` where Python raises `ValueError`. */
  function ParseType(s: string): (r: Option<ScheduleType>)
    ensures r.Some? ==> TypeName(r.value) == s
    ensures r.None? ==> forall t :: TypeName(t) != s
  {
    if s == "cron" then Some(Cron)
    else if s == "interval" then Some(Interval)
    else if s == "daily" then Some(Daily)
    else if s == "weekly" then Some(Weekly)
    else if s == "monthly" then Some(Monthly)
    else if s == "once" then Some(Once)
    else None
  }

  function StatusName(s: ScheduleStatus): string {
    match s
    case Active => "active"
    case Paused => "paused"
    case Disabled => "disabled"
  }

  /** `ScheduleStatus(s)`, or `None` where Python raises `ValueError`. */
  function ParseStatus(s: string): (r: Option<ScheduleStatus>)
    ensures r.Some? ==> StatusName(r.value) == s
    ensures r.None? ==> forall st :: StatusName(st) != s
  {
    if s == "active" then Some(Active)
    else if s == "paused" then Some(Paused)
    else if s == "disabled" then Some(Disabled)
    else None
  }

  /** The text of the `ValueError` an enum raises for a value it does not have:
      `"%r is not a valid %s"` of the value and the enum's name. The value
      reads back from the head of the message, so two different values never
      share a message. */
  function InvalidEnumMessage(value: string, enumName: string): (m: string)
    ensures Text.IsSuffix(" is not a valid " + enumName, m)
    ensures Repr.UnRepr(m[..|m| - |" is not a valid " + enumName|]) == Some(value)
  {
    var m := Repr.PyRepr(value) + " is not a valid " + enumName;
    assert m[..|m| - |" is not a valid " + enumName|] == Repr.PyRepr(value);
    Repr.ReprRoundTrip(value);
    m
  }

  /** The example of a value holding an apostrophe: `repr` switches to double quotes. */
  lemma ApostropheMessage()
    ensures InvalidEnumMessage("it's", "ScheduleType") == "\"it's\"" + " is not a valid ScheduleType"
  {
    var v := "it's";
    assert v[2] == '\'';
    Repr.ReprDoubleQuoted(v);
  }

  /** A schedule. Timestamps are ISO-format strings supplied by the caller; the
      timing fields that only some schedule types use are optional. */
  datatype ScheduleConfig = ScheduleConfig(
    id: string,
    name: string,
    description: string,
    backupTypes: seq<string>,
    scheduleType: ScheduleType,
    status: ScheduleStatus,
    cronExpression: Option<string>,
    intervalMinutes: Option<int>,
    timeOfDay: Option<string>,
    daysOfWeek: Option<seq<int>>,
    daysOfMonth: Option<seq<int>>,
    runDate: Option<string>,
    createdAt: string,
    updatedAt: string,
    lastRun: Option<string>,
    nextRun: Option<string>,
    runCount: int,
    lastStatus: Option<string>,
    retryOnFailure: bool,
    maxRetries: int,
    notificationEmail: Option<string>,
    sequentialExecution: bool)

  /** The dictionary form (`to_dict`, and what is persisted): the same fields
      with the two enums held as their string values. */
  datatype ScheduleDict = ScheduleDict(
    id: string,
    name: string,
    description: string,
    backupTypes: seq<string>,
    scheduleType: string,
    status: string,
    cronExpression: Option<string>,
    intervalMinutes: Option<int>,
    timeOfDay: Option<string>,
    daysOfWeek: Option<seq<int>>,
    daysOfMonth: Option<seq<int>>,
    runDate: Option<string>,
    createdAt: string,
    updatedAt: string,
    lastRun: Option<string>,
    nextRun: Option<string>,
    runCount: int,
    lastStatus: Option<string>,
    retryOnFailure: bool,
    maxRetries: int,
    notificationEmail: Option<string>,
    sequentialExecution: bool)

  function ToDict(c: ScheduleConfig): ScheduleDict {
    ScheduleDict(c.id, c.name, c.description, c.backupTypes, TypeName(c.scheduleType),
      StatusName(c.status), c.cronExpression, c.intervalMinutes, c.timeOfDay, c.daysOfWeek,
      c.daysOfMonth, c.runDate, c.createdAt, c.updatedAt, c.lastRun, c.nextRun, c.runCount,
      c.lastStatus, c.retryOnFailure, c.maxRetries, c.notificationEmail, c.sequentialExecution)
  }

  /** `ScheduleConfig.from_dict`: converts `schedule_type`, then `status`; an
      unknown value raises `ValueError`. */
  function FromDict(d: ScheduleDict): (r: Result<ScheduleConfig, string>)
    ensures r.Success? <==> ParseType(d.scheduleType).Some? && ParseStatus(d.status).Some?
    ensures r.Success? ==> ToDict(r.value) == d
    ensures ParseType(d.scheduleType).None? ==> r == Failure(InvalidEnumMessage(d.scheduleType, "ScheduleType"))
    ensures ParseType(d.scheduleType).Some? && ParseStatus(d.status).None? ==>
      r == Failure(InvalidEnumMessage(d.status, "ScheduleStatus"))
  {
    match ParseType(d.scheduleType)
    case None => Failure(InvalidEnumMessage(d.scheduleType, "ScheduleType"))
    case Some(t) =>
      match ParseStatus(d.status)
      case None => Failure(InvalidEnumMessage(d.status, "ScheduleStatus"))
      case Some(s) =>
        Success(ScheduleConfig(d.id, d.name, d.description, d.backupTypes, t, s,
          d.cronExpression, d.intervalMinutes, d.timeOfDay, d.daysOfWeek, d.daysOfMonth,
          d.runDate, d.createdAt, d.updatedAt, d.lastRun, d.nextRun, d.runCount,
          d.lastStatus, d.retryOnFailure, d.maxRetries, d.notificationEmail,
          d.sequentialExecution))
  }

  /** Saving and loading a schedule gives the same schedule back. */
  lemma FromDictToDict(c: ScheduleConfig)
    ensures FromDict(ToDict(c)) == Success(c)
  {
    match c.scheduleType {
      case Cron =>
      case Interval =>
      case Daily =>
      case Weekly =>
      case Monthly =>
      case Once =>
    }
  }

  /** The fields a trigger is built from. */
  datatype Timing = Timing(
    scheduleType: ScheduleType,
    cronExpression: Option<string>,
    intervalMinutes: Option<int>,
    timeOfDay: Option<string>,
    daysOfWeek: Option<seq<int>>,
    daysOfMonth: Option<seq<int>>,
    runDate: Option<string>)

  function TimingOf(c: ScheduleConfig): Timing {
    Timing(c.scheduleType, c.cronExpression, c.intervalMinutes, c.timeOfDay, c.daysOfWeek,
      c.daysOfMonth, c.runDate)
  }

  /** `_calculate_next_run`: a ONCE schedule fires at its `run_date`; for every
      other type `nextFire` stands for croniter/APScheduler at the current clock
      (yielding `None` where those raise or find no fire time). */
  function CalculateNextRun(c: ScheduleConfig, nextFire: Timing -> Option<string>): Option<string> {
    if c.scheduleType == Once then c.runDate else nextFire(TimingOf(c))
  }

  /** `next_run` is what `_calculate_next_run` gives for the schedule's timing. */
  predicate NextRunCurrent(c: ScheduleConfig, nextFire: Timing -> Option<string>) {
    c.nextRun == CalculateNextRun(c, nextFire)
  }

  // ---------------------------------------------------------------------
  // update_schedule's loop over the `updates` dictionary
  // ---------------------------------------------------------------------

  datatype Field =
    | IdField | NameField | DescriptionField | BackupTypesField | ScheduleTypeField | StatusField
    | CronExpressionField | IntervalMinutesField | TimeOfDayField | DaysOfWeekField
    | DaysOfMonthField | RunDateField | CreatedAtField | UpdatedAtField | LastRunField
    | NextRunField | RunCountField | LastStatusField | RetryOnFailureField | MaxRetriesField
    | NotificationEmailField | SequentialExecutionField

  /** One `key: value` entry of an `updates` dictionary. Enum-valued keys carry
      the string that `ScheduleType(...)`/`ScheduleStatus(...)` will convert;
      `SetUnknown` is a key that is not an attribute of the schedule. */
  datatype FieldUpdate =
    | SetId(string)
    | SetName(string)
    | SetDescription(string)
    | SetBackupTypes(seq<string>)
    | SetScheduleType(string)
    | SetStatus(string)
    | SetCronExpression(Option<string>)
    | SetIntervalMinutes(Option<int>)
    | SetTimeOfDay(Option<string>)
    | SetDaysOfWeek(Option<seq<int>>)
    | SetDaysOfMonth(Option<seq<int>>)
    | SetRunDate(Option<string>)
    | SetCreatedAt(string)
    | SetUpdatedAt(string)
    | SetLastRun(Option<string>)
    | SetNextRun(Option<string>)
    | SetRunCount(int)
    | SetLastStatus(Option<string>)
    | SetRetryOnFailure(bool)
    | SetMaxRetries(int)
    | SetNotificationEmail(Option<string>)
    | SetSequentialExecution(bool)
    | SetUnknown(string)

  function FieldOf(u: FieldUpdate): Option<Field> {
    match u
    case SetId(_) => Some(IdField)
    case SetName(_) => Some(NameField)
    case SetDescription(_) => Some(DescriptionField)
    case SetBackupTypes(_) => Some(BackupTypesField)
    case SetScheduleType(_) => Some(ScheduleTypeField)
    case SetStatus(_) => Some(StatusField)
    case SetCronExpression(_) => Some(CronExpressionField)
    case SetIntervalMinutes(_) => Some(IntervalMinutesField)
    case SetTimeOfDay(_) => Some(TimeOfDayField)
    case SetDaysOfWeek(_) => Some(DaysOfWeekField)
    case SetDaysOfMonth(_) => Some(DaysOfMonthField)
    case SetRunDate(_) => Some(RunDateField)
    case SetCreatedAt(_) => Some(CreatedAtField)
    case SetUpdatedAt(_) => Some(UpdatedAtField)
    case SetLastRun(_) => Some(LastRunField)
    case SetNextRun(_) => Some(NextRunField)
    case SetRunCount(_) => Some(RunCountField)
    case SetLastStatus(_) => Some(LastStatusField)
    case SetRetryOnFailure(_) => Some(RetryOnFailureField)
    case SetMaxRetries(_) => Some(MaxRetriesField)
    case SetNotificationEmail(_) => Some(NotificationEmailField)
    case SetSequentialExecution(_) => Some(SequentialExecutionField)
    case SetUnknown(_) => None
  }

  /** The keys `update_schedule` refuses to overwrite. */
  predicate Protected(f: Field) {
    f == IdField || f == CreatedAtField
  }

  /** The two schedules hold the same value in field `f`. */
  predicate Agree(a: ScheduleConfig, b: ScheduleConfig, f: Field) {
    match f
    case IdField => a.id == b.id
    case NameField => a.name == b.name
    case DescriptionField => a.description == b.description
    case BackupTypesField => a.backupTypes == b.backupTypes
    case ScheduleTypeField => a.scheduleType == b.scheduleType
    case StatusField => a.status == b.status
    case CronExpressionField => a.cronExpression == b.cronExpression
    case IntervalMinutesField => a.intervalMinutes == b.intervalMinutes
    case TimeOfDayField => a.timeOfDay == b.timeOfDay
    case DaysOfWeekField => a.daysOfWeek == b.daysOfWeek
    case DaysOfMonthField => a.daysOfMonth == b.daysOfMonth
    case RunDateField => a.runDate == b.runDate
    case CreatedAtField => a.createdAt == b.createdAt
    case UpdatedAtField => a.updatedAt == b.updatedAt
    case LastRunField => a.lastRun == b.lastRun
    case NextRunField => a.nextRun == b.nextRun
    case RunCountField => a.runCount == b.runCount
    case LastStatusField => a.lastStatus == b.lastStatus
    case RetryOnFailureField => a.retryOnFailure == b.retryOnFailure
    case MaxRetriesField => a.maxRetries == b.maxRetries
    case NotificationEmailField => a.notificationEmail == b.notificationEmail
    case SequentialExecutionField => a.sequentialExecution == b.sequentialExecution
  }

  /** The schedule holds the value the entry asks for (protected and unknown
      keys ask for nothing). */
  predicate Reflects(c: ScheduleConfig, u: FieldUpdate) {
    match u
    case SetId(_) => true
    case SetName(v) => c.name == v
    case SetDescription(v) => c.description == v
    case SetBackupTypes(v) => c.backupTypes == v
    case SetScheduleType(v) => ParseType(v) == Some(c.scheduleType)
    case SetStatus(v) => ParseStatus(v) == Some(c.status)
    case SetCronExpression(v) => c.cronExpression == v
    case SetIntervalMinutes(v) => c.intervalMinutes == v
    case SetTimeOfDay(v) => c.timeOfDay == v
    case SetDaysOfWeek(v) => c.daysOfWeek == v
    case SetDaysOfMonth(v) => c.daysOfMonth == v
    case SetRunDate(v) => c.runDate == v
    case SetCreatedAt(_) => true
    case SetUpdatedAt(v) => c.updatedAt == v
    case SetLastRun(v) => c.lastRun == v
    case SetNextRun(v) => c.nextRun == v
    case SetRunCount(v) => c.runCount == v
    case SetLastStatus(v) => c.lastStatus == v
    case SetRetryOnFailure(v) => c.retryOnFailure == v
    case SetMaxRetries(v) => c.maxRetries == v
    case SetNotificationEmail(v) => c.notificationEmail == v
    case SetSequentialExecution(v) => c.sequentialExecution == v
    case SetUnknown(_) => true
  }

  /** The entry carries an enum string that the enum does not have. */
  predicate Rejects(u: FieldUpdate) {
    match u
    case SetScheduleType(v) => ParseType(v).None?
    case SetStatus(v) => ParseStatus(v).None?
    case _ => false
  }

  /** One iteration of the loop: `setattr` unless the key is protected or unknown. */
  function ApplyField(c: ScheduleConfig, u: FieldUpdate): (r: Result<ScheduleConfig, string>)
    ensures r.Failure? <==> Rejects(u)
    ensures r.Success? ==> Reflects(r.value, u)
    ensures r.Success? ==> r.value.id == c.id && r.value.createdAt == c.createdAt
  {
    match u
    case SetId(_) => Success(c)
    case SetName(v) => Success(c.(name := v))
    case SetDescription(v) => Success(c.(description := v))
    case SetBackupTypes(v) => Success(c.(backupTypes := v))
    case SetScheduleType(v) =>
      (match ParseType(v)
       case Some(t) => Success(c.(scheduleType := t))
       case None => Failure(InvalidEnumMessage(v, "ScheduleType")))
    case SetStatus(v) =>
      (match ParseStatus(v)
       case Some(s) => Success(c.(status := s))
       case None => Failure(InvalidEnumMessage(v, "ScheduleStatus")))
    case SetCronExpression(v) => Success(c.(cronExpression := v))
    case SetIntervalMinutes(v) => Success(c.(intervalMinutes := v))
    case SetTimeOfDay(v) => Success(c.(timeOfDay := v))
    case SetDaysOfWeek(v) => Success(c.(daysOfWeek := v))
    case SetDaysOfMonth(v) => Success(c.(daysOfMonth := v))
    case SetRunDate(v) => Success(c.(runDate := v))
    case SetCreatedAt(_) => Success(c)
    case SetUpdatedAt(v) => Success(c.(updatedAt := v))
    case SetLastRun(v) => Success(c.(lastRun := v))
    case SetNextRun(v) => Success(c.(nextRun := v))
    case SetRunCount(v) => Success(c.(runCount := v))
    case SetLastStatus(v) => Success(c.(lastStatus := v))
    case SetRetryOnFailure(v) => Success(c.(retryOnFailure := v))
    case SetMaxRetries(v) => Success(c.(maxRetries := v))
    case SetNotificationEmail(v) => Success(c.(notificationEmail := v))
    case SetSequentialExecution(v) => Success(c.(sequentialExecution := v))
    case SetUnknown(_) => Success(c)
  }

  /** Setting one attribute leaves every other attribute as it was. */
  lemma ApplyFieldFrame(c: ScheduleConfig, u: FieldUpdate, f: Field)
    requires ApplyField(c, u).Success? && Some(f) != FieldOf(u)
    ensures Agree(c, ApplyField(c, u).value, f)
  {
    match f {
      case IdField =>
      case NameField =>
      case DescriptionField =>
      case BackupTypesField =>
      case ScheduleTypeField =>
      case StatusField =>
      case CronExpressionField =>
      case IntervalMinutesField =>
      case TimeOfDayField =>
      case DaysOfWeekField =>
      case DaysOfMonthField =>
      case RunDateField =>
      case CreatedAtField =>
      case UpdatedAtField =>
      case LastRunField =>
      case NextRunField =>
      case RunCountField =>
      case LastStatusField =>
      case RetryOnFailureField =>
      case MaxRetriesField =>
      case NotificationEmailField =>
      case SequentialExecutionField =>
    }
  }

  /** The loop's outcome: the schedule as the loop left it, and the message of
      the `ValueError` that stopped it, if one did. The attributes set before
      the failing entry stay set, since the loop mutates the schedule in place. */
  datatype Applied = Applied(config: ScheduleConfig, error: Option<string>)

  function ApplyFields(c: ScheduleConfig, ups: seq<FieldUpdate>): (r: Applied)
    ensures r.config.id == c.id && r.config.createdAt == c.createdAt
    ensures r.error.None? <==> forall i :: 0 <= i < |ups| ==> !Rejects(ups[i])
    decreases |ups|
  {
    if |ups| == 0 then Applied(c, None)
    else
      match ApplyField(c, ups[0])
      case Failure(e) => Applied(c, Some(e))
      case Success(c1) =>
        var r := ApplyFields(c1, ups[1..]);
        assert forall i :: 1 <= i < |ups| ==> ups[i] == ups[1..][i - 1];
        r
  }

  predicate Mentioned(ups: seq<FieldUpdate>, f: Field) {
    exists i :: 0 <= i < |ups| && FieldOf(ups[i]) == Some(f)
  }

  /** No later entry of `ups` sets the field that entry `i` sets. */
  predicate LastFor(ups: seq<FieldUpdate>, i: int)
    requires 0 <= i < |ups|
  {
    forall j :: i < j < |ups| ==> FieldOf(ups[j]) != FieldOf(ups[i])
  }

  /** Fields that no entry names keep their value, whether or not the loop
      completed. */
  lemma {:induction false} ApplyFieldsFrame(c: ScheduleConfig, ups: seq<FieldUpdate>, f: Field)
    requires !Mentioned(ups, f)
    ensures Agree(c, ApplyFields(c, ups).config, f)
    decreases |ups|
  {
    if |ups| > 0 {
      assert FieldOf(ups[0]) != Some(f);
      match ApplyField(c, ups[0]) {
        case Failure(_) =>
        case Success(c1) =>
          assert !Mentioned(ups[1..], f) by {
            forall i | 0 <= i < |ups[1..]| ensures FieldOf(ups[1..][i]) != Some(f) {
              assert ups[1..][i] == ups[i + 1];
            }
          }
          ApplyFieldsFrame(c1, ups[1..], f);
          ApplyFieldFrame(c, ups[0], f);
          AgreeTrans(c, c1, ApplyFields(c1, ups[1..]).config, f);
      }
    }
  }

  lemma AgreeTrans(a: ScheduleConfig, b: ScheduleConfig, c: ScheduleConfig, f: Field)
    requires Agree(a, b, f) && Agree(b, c, f)
    ensures Agree(a, c, f)
  {
  }

  lemma ReflectsAgree(a: ScheduleConfig, b: ScheduleConfig, u: FieldUpdate)
    requires Reflects(a, u)
    requires FieldOf(u).Some? ==> Agree(a, b, FieldOf(u).value)
    ensures Reflects(b, u)
  {
  }

  /** When the loop completes, every field takes the value of the last entry
      that names it. */
  lemma {:induction false} ApplyFieldsLastWins(c: ScheduleConfig, ups: seq<FieldUpdate>, i: int)
    requires 0 <= i < |ups| && LastFor(ups, i)
    requires ApplyFields(c, ups).error.None?
    ensures Reflects(ApplyFields(c, ups).config, ups[i])
    decreases |ups|
  {
    var c1 := ApplyField(c, ups[0]).value;
    var rest := ups[1..];
    var final := ApplyFields(c1, rest).config;
    assert ApplyFields(c, ups).config == final;
    if i == 0 {
      match FieldOf(ups[0]) {
        case None =>
          ReflectsAgree(c1, final, ups[0]);
        case Some(f) =>
          assert !Mentioned(rest, f) by {
            forall j | 0 <= j < |rest| ensures FieldOf(rest[j]) != Some(f) {
              assert rest[j] == ups[j + 1];
            }
          }
          ApplyFieldsFrame(c1, rest, f);
          ReflectsAgree(c1, final, ups[0]);
      }
    } else {
      assert rest[i - 1] == ups[i];
      assert LastFor(rest, i - 1) by {
        forall j | i - 1 < j < |rest| ensures FieldOf(rest[j]) != FieldOf(rest[i - 1]) {
          assert rest[j] == ups[j + 1];
        }
      }
      ApplyFieldsLastWins(c1, rest, i - 1);
    }
  }
}
