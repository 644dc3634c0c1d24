/** The schedule endpoints of the backend API (backend/main.py): the request
    bodies with their declared bounds, the checks `create_schedule` makes
    before it hands the body to the scheduler, and the translation of an
    update body into the scheduler's field updates. */
module ScheduleApi {
  import opened Wrappers
  import opened Seqs
  import opened Text
  import opened Http
  import opened Schedules
  import Scheduler

  const SchedulerDown: HttpError := HttpError(503, "Scheduler no inicializado")
  const ScheduleNotFound: HttpError := HttpError(404, "Schedule no encontrado")
  /** A body that breaks a declared field bound; the per-field detail list of
      the framework is not modelled. */
  const Unprocessable: HttpError := HttpError(422, "Unprocessable Entity")
  /** An exception that escapes an endpoint. */
  const InternalError: HttpError := HttpError(500, "Internal Server Error")

  // ---------------------------------------------------------------------
  // Creation

  /** `ScheduleCreateRequest`. */
  datatype CreateRequest = CreateRequest(
    name: string,
    description: string,
    backupTypes: seq<string>,
    scheduleType: string,
    cronExpression: Option<string>,
    intervalMinutes: Option<int>,
    timeOfDay: Option<string>,
    daysOfWeek: Option<seq<int>>,
    daysOfMonth: Option<seq<int>>,
    runDate: Option<string>,
    sequentialExecution: bool,
    retryOnFailure: bool,
    maxRetries: int)

  /** Two digits, a colon, two digits (ASCII digits only). */
  predicate ClockShape(s: string) {
    |s| == 5 && IsDigit(s[0]) && IsDigit(s[1]) && s[2] == ':' && IsDigit(s[3]) && IsDigit(s[4])
  }

  /** The field bounds declared on the request model. */
  predicate CreateWithinBounds(req: CreateRequest) {
    && 1 <= |req.name| <= 100
    && |req.description| <= 500
    && |req.backupTypes| >= 1
    && (req.intervalMinutes.Some? ==> 5 <= req.intervalMinutes.value <= 10080)
    && (req.timeOfDay.Some? ==> ClockShape(req.timeOfDay.value))
    && 0 <= req.maxRetries <= 10
  }

  const ValidBackupTypes: set<string> := {"mongodb", "milvus", "postgres", "additional", "global"}

  function InvalidTypeError(bt: string): HttpError {
    HttpError(400, "Tipo de backup inválido: " + bt)
  }

  /** The first entry of `bts` that is not a known backup type. */
  function FirstInvalidType(bts: seq<string>): (r: Option<string>)
    ensures r.None? <==> forall i :: 0 <= i < |bts| ==> bts[i] in ValidBackupTypes
    ensures r.Some? ==>
      exists k :: (0 <= k < |bts| && bts[k] == r.value && r.value !in ValidBackupTypes
        && forall i :: 0 <= i < k ==> bts[i] in ValidBackupTypes)
    decreases |bts|
  {
    if |bts| == 0 then None
    else if bts[0] !in ValidBackupTypes then Some(bts[0])
    else
      var r := FirstInvalidType(bts[1..]);
      assert forall i :: 1 <= i < |bts| ==> bts[i] == bts[1..][i - 1];
      assert r.Some? ==> exists k :: (0 <= k < |bts| && bts[k] == r.value && r.value !in ValidBackupTypes
        && forall i :: 0 <= i < k ==> bts[i] in ValidBackupTypes) by {
        if r.Some? {
          var k :| 0 <= k < |bts[1..]| && bts[1..][k] == r.value && r.value !in ValidBackupTypes
            && forall i :: 0 <= i < k ==> bts[1..][i] in ValidBackupTypes;
          assert bts[k + 1] == r.value;
        }
      }
      r
  }

  /** The timing fields a schedule type needs. */
  datatype Need = NeedCron | NeedInterval | NeedTime | NeedWeekDays | NeedMonthDays | NeedRunDate

  /** Which timing fields each schedule type needs; other type strings need none. */
  function Required(scheduleType: string): set<Need> {
    if scheduleType == "cron" then {NeedCron}
    else if scheduleType == "interval" then {NeedInterval}
    else if scheduleType == "daily" then {NeedTime}
    else if scheduleType == "weekly" then {NeedTime, NeedWeekDays}
    else if scheduleType == "monthly" then {NeedTime, NeedMonthDays}
    else if scheduleType == "once" then {NeedRunDate}
    else {}
  }

  /** Python truthiness of an optional string, number or list. */
  predicate GivenText(o: Option<string>) { o.Some? && o.value != "" }
  predicate GivenNumber(o: Option<int>) { o.Some? && o.value != 0 }
  predicate GivenList(o: Option<seq<int>>) { o.Some? && o.value != [] }

  predicate Present(req: CreateRequest, n: Need) {
    match n
    case NeedCron => GivenText(req.cronExpression)
    case NeedInterval => GivenNumber(req.intervalMinutes)
    case NeedTime => GivenText(req.timeOfDay)
    case NeedWeekDays => GivenList(req.daysOfWeek)
    case NeedMonthDays => GivenList(req.daysOfMonth)
    case NeedRunDate => GivenText(req.runDate)
  }

  /** The chain of per-type checks, in the order the endpoint makes them. */
  function MissingTiming(req: CreateRequest): (r: Option<HttpError>)
    ensures r.None? <==> forall n :: n in Required(req.scheduleType) ==> Present(req, n)
    ensures r.Some? ==> r.value.status == 400
  {
    var t := req.scheduleType;
    if t == "cron" && !GivenText(req.cronExpression) then
      assert !Present(req, NeedCron);
      Some(HttpError(400, "Se requiere cron_expression para tipo cron"))
    else if t == "interval" && !GivenNumber(req.intervalMinutes) then
      assert !Present(req, NeedInterval);
      Some(HttpError(400, "Se requiere interval_minutes para tipo interval"))
    else if (t == "daily" || t == "weekly" || t == "monthly") && !GivenText(req.timeOfDay) then
      assert NeedTime in Required(t) && !Present(req, NeedTime);
      Some(HttpError(400, "Se requiere time_of_day para tipo " + t))
    else if t == "weekly" && !GivenList(req.daysOfWeek) then
      assert !Present(req, NeedWeekDays);
      Some(HttpError(400, "Se requiere days_of_week para tipo weekly"))
    else if t == "monthly" && !GivenList(req.daysOfMonth) then
      assert !Present(req, NeedMonthDays);
      Some(HttpError(400, "Se requiere days_of_month para tipo monthly"))
    else if t == "once" && !GivenText(req.runDate) then
      assert !Present(req, NeedRunDate);
      Some(HttpError(400, "Se requiere run_date para tipo once"))
    else None
  }

  /** `request.model_dump()` as the scheduler receives it: a new schedule is
      active and has never run. The identifier and the two timestamps are
      filled in by the scheduler. */
  function CreateDict(req: CreateRequest): (d: ScheduleDict)
    ensures d.status == StatusName(Active) && d.runCount == 0
    ensures d.lastRun.None? && d.nextRun.None? && d.lastStatus.None? && d.notificationEmail.None?
  {
    ScheduleDict("", req.name, req.description, req.backupTypes, req.scheduleType, "active",
      req.cronExpression, req.intervalMinutes, req.timeOfDay, req.daysOfWeek, req.daysOfMonth,
      req.runDate, "", "", None, None, 0, None, req.retryOnFailure, req.maxRetries, None,
      req.sequentialExecution)
  }

  /** The body is accepted by every check the endpoint makes. */
  predicate Acceptable(req: CreateRequest) {
    && CreateWithinBounds(req)
    && (forall i :: 0 <= i < |req.backupTypes| ==> req.backupTypes[i] in ValidBackupTypes)
    && (forall n :: n in Required(req.scheduleType) ==> Present(req, n))
    && ParseType(req.scheduleType).Some?
  }

  /** `POST /api/schedules`. `schedulerUp` is whether the scheduler was started. */
  function CreateEndpoint(st: Scheduler.BackupScheduler, schedulerUp: bool, req: CreateRequest,
                          newId: string, now: string, nextFire: Timing -> Option<string>)
    : (r: Result<Scheduler.Created, HttpError>)
    ensures !CreateWithinBounds(req) ==> r == Failure(Unprocessable)
    ensures CreateWithinBounds(req) && !schedulerUp ==> r == Failure(SchedulerDown)
    ensures CreateWithinBounds(req) && schedulerUp && FirstInvalidType(req.backupTypes).Some? ==>
      r == Failure(InvalidTypeError(FirstInvalidType(req.backupTypes).value))
    ensures r.Success? <==> schedulerUp && Acceptable(req)
    ensures r.Failure? && CreateWithinBounds(req) && schedulerUp ==> r.error.status == 400
    ensures r.Success? ==>
      var s := r.value.schedule;
      && s.id == newId && s.name == req.name && s.description == req.description
      && s.backupTypes == req.backupTypes && TypeName(s.scheduleType) == req.scheduleType
      && s.status == Active && s.runCount == 0 && s.lastRun.None? && s.lastStatus.None?
      && s.createdAt == now && s.updatedAt == now
      && s.cronExpression == req.cronExpression && s.intervalMinutes == req.intervalMinutes
      && s.timeOfDay == req.timeOfDay && s.daysOfWeek == req.daysOfWeek
      && s.daysOfMonth == req.daysOfMonth && s.runDate == req.runDate
      && s.maxRetries == req.maxRetries && s.retryOnFailure == req.retryOnFailure
      && s.sequentialExecution == req.sequentialExecution
      && NextRunCurrent(s, nextFire)
      && r.value.after == st.(schedules := st.schedules[newId := s])
  {
    if !CreateWithinBounds(req) then Failure(Unprocessable)
    else if !schedulerUp then Failure(SchedulerDown)
    else
      match FirstInvalidType(req.backupTypes)
      case Some(bt) => Failure(InvalidTypeError(bt))
      case None =>
        match MissingTiming(req)
        case Some(e) => Failure(e)
        case None =>
          match Scheduler.CreateSchedule(st, CreateDict(req), newId, now, nextFire)
          case Failure(msg) => Failure(HttpError(400, msg))
          case Success(created) => Success(created)
  }

  /** A type string the scheduler does not know passes the per-type checks
      (it needs no timing field) and is refused with the enum's own message. */
  lemma UnknownTypeRefused(st: Scheduler.BackupScheduler, req: CreateRequest, newId: string,
                           now: string, nextFire: Timing -> Option<string>)
    requires CreateWithinBounds(req) && FirstInvalidType(req.backupTypes).None?
    requires ParseType(req.scheduleType).None?
    ensures CreateEndpoint(st, true, req, newId, now, nextFire)
      == Failure(HttpError(400, InvalidEnumMessage(req.scheduleType, "ScheduleType")))
  {
    assert Required(req.scheduleType) == {};
    assert FromDict(CreateDict(req).(id := newId, createdAt := now, updatedAt := now)).Failure?;
  }

  // ---------------------------------------------------------------------
  // Update

  /** `ScheduleUpdateRequest`: every field optional. */
  datatype UpdateRequest = UpdateRequest(
    name: Option<string>,
    description: Option<string>,
    backupTypes: Option<seq<string>>,
    scheduleType: Option<string>,
    status: Option<string>,
    cronExpression: Option<string>,
    intervalMinutes: Option<int>,
    timeOfDay: Option<string>,
    daysOfWeek: Option<seq<int>>,
    daysOfMonth: Option<seq<int>>,
    runDate: Option<string>,
    sequentialExecution: Option<bool>,
    retryOnFailure: Option<bool>,
    maxRetries: Option<int>)

  predicate UpdateWithinBounds(req: UpdateRequest) {
    && (req.name.Some? ==> 1 <= |req.name.value| <= 100)
    && (req.description.Some? ==> |req.description.value| <= 500)
  }

  /** The body sets field `f`. */
  predicate Sets(req: UpdateRequest, f: Field) {
    match f
    case NameField => req.name.Some?
    case DescriptionField => req.description.Some?
    case BackupTypesField => req.backupTypes.Some?
    case ScheduleTypeField => req.scheduleType.Some?
    case StatusField => req.status.Some?
    case CronExpressionField => req.cronExpression.Some?
    case IntervalMinutesField => req.intervalMinutes.Some?
    case TimeOfDayField => req.timeOfDay.Some?
    case DaysOfWeekField => req.daysOfWeek.Some?
    case DaysOfMonthField => req.daysOfMonth.Some?
    case RunDateField => req.runDate.Some?
    case SequentialExecutionField => req.sequentialExecution.Some?
    case RetryOnFailureField => req.retryOnFailure.Some?
    case MaxRetriesField => req.maxRetries.Some?
    case _ => false
  }

  /** The request fields in declaration order. */
  const Order: seq<Field> := [
    NameField, DescriptionField, BackupTypesField, ScheduleTypeField, StatusField,
    CronExpressionField, IntervalMinutesField, TimeOfDayField, DaysOfWeekField, DaysOfMonthField,
    RunDateField, SequentialExecutionField, RetryOnFailureField, MaxRetriesField]

  function Entry<T>(o: Option<T>, set_: T -> FieldUpdate): Option<FieldUpdate> {
    if o.Some? then Some(set_(o.value)) else None
  }

  /** One slot per request field, holding the entry it contributes when it is given. */
  function Slots(req: UpdateRequest): (s: seq<Option<FieldUpdate>>)
    ensures |s| == |Order|
  {
    [ Entry(req.name, (v: string) => SetName(v)),
      Entry(req.description, (v: string) => SetDescription(v)),
      Entry(req.backupTypes, (v: seq<string>) => SetBackupTypes(v)),
      Entry(req.scheduleType, (v: string) => SetScheduleType(v)),
      Entry(req.status, (v: string) => SetStatus(v)),
      Entry(req.cronExpression, (v: string) => SetCronExpression(Some(v))),
      Entry(req.intervalMinutes, (v: int) => SetIntervalMinutes(Some(v))),
      Entry(req.timeOfDay, (v: string) => SetTimeOfDay(Some(v))),
      Entry(req.daysOfWeek, (v: seq<int>) => SetDaysOfWeek(Some(v))),
      Entry(req.daysOfMonth, (v: seq<int>) => SetDaysOfMonth(Some(v))),
      Entry(req.runDate, (v: string) => SetRunDate(Some(v))),
      Entry(req.sequentialExecution, (v: bool) => SetSequentialExecution(v)),
      Entry(req.retryOnFailure, (v: bool) => SetRetryOnFailure(v)),
      Entry(req.maxRetries, (v: int) => SetMaxRetries(v)) ]
  }

  /** Slot `k` is filled exactly when the body gives field `Order[k]`, and its
      entry sets that field. */
  lemma SlotsShape(req: UpdateRequest, k: int)
    requires 0 <= k < |Order|
    ensures Slots(req)[k].Some? <==> Sets(req, Order[k])
    ensures Slots(req)[k].Some? ==> FieldOf(Slots(req)[k].value) == Some(Order[k])
  {
    if k < 4 {
      SlotsShapeA(req, k);
    } else if k < 8 {
      SlotsShapeB(req, k);
    } else if k < 11 {
      SlotsShapeC(req, k);
    } else {
      SlotsShapeD(req, k);
    }
  }

  lemma SlotsShapeA(req: UpdateRequest, k: int)
    requires 0 <= k < 4
    ensures Slots(req)[k].Some? <==> Sets(req, Order[k])
    ensures Slots(req)[k].Some? ==> FieldOf(Slots(req)[k].value) == Some(Order[k])
  {
    if k == 0 {} else if k == 1 {} else if k == 2 {} else {}
  }

  lemma SlotsShapeB(req: UpdateRequest, k: int)
    requires 4 <= k < 8
    ensures Slots(req)[k].Some? <==> Sets(req, Order[k])
    ensures Slots(req)[k].Some? ==> FieldOf(Slots(req)[k].value) == Some(Order[k])
  {
    if k == 4 {} else if k == 5 {} else if k == 6 {} else {}
  }

  lemma SlotsShapeC(req: UpdateRequest, k: int)
    requires 8 <= k < 11
    ensures Slots(req)[k].Some? <==> Sets(req, Order[k])
    ensures Slots(req)[k].Some? ==> FieldOf(Slots(req)[k].value) == Some(Order[k])
  {
    if k == 8 {} else if k == 9 {} else {}
  }

  lemma SlotsShapeD(req: UpdateRequest, k: int)
    requires 11 <= k < |Order|
    ensures Slots(req)[k].Some? <==> Sets(req, Order[k])
    ensures Slots(req)[k].Some? ==> FieldOf(Slots(req)[k].value) == Some(Order[k])
  {
    if k == 11 {} else if k == 12 {} else {}
  }

  lemma SetsInOrder(req: UpdateRequest, f: Field)
    requires Sets(req, f)
    ensures f in Order
  {
  }

  /** `{k: v for k, v in request.model_dump().items() if v is not None}`, in
      the order the request model declares its fields. */
  function UpdatesOf(req: UpdateRequest): seq<FieldUpdate> {
    Somes(Slots(req))
  }

  /** The schedule holds every value the body gives. */
  predicate Holds(c: ScheduleConfig, req: UpdateRequest) {
    forall k :: 0 <= k < |Order| ==> HoldsAt(c, req, k)
  }

  /** The two enum strings of the body, when given, name members of their enums. */
  predicate EnumsKnown(req: UpdateRequest) {
    && (req.scheduleType.Some? ==> ParseType(req.scheduleType.value).Some?)
    && (req.status.Some? ==> ParseStatus(req.status.value).Some?)
  }

  lemma SlotsAll(req: UpdateRequest)
    ensures forall k :: 0 <= k < |Order| ==> (Slots(req)[k].Some? <==> Sets(req, Order[k]))
    ensures forall k :: 0 <= k < |Order| && Slots(req)[k].Some? ==>
      FieldOf(Slots(req)[k].value) == Some(Order[k])
  {
    forall k | 0 <= k < |Order| ensures (Slots(req)[k].Some? <==> Sets(req, Order[k]))
      && (Slots(req)[k].Some? ==> FieldOf(Slots(req)[k].value) == Some(Order[k])) {
      SlotsShape(req, k);
    }
  }

  /** The entries name exactly the fields the body gives. */
  lemma UpdatesMention(req: UpdateRequest, f: Field)
    ensures Mentioned(UpdatesOf(req), f) <==> Sets(req, f)
  {
    if Mentioned(UpdatesOf(req), f) {
      MentionedIsSet(req, f);
    }
    if Sets(req, f) {
      SetIsMentioned(req, f);
    }
  }

  lemma MentionedIsSet(req: UpdateRequest, f: Field)
    requires Mentioned(UpdatesOf(req), f)
    ensures Sets(req, f)
  {
    var s := Slots(req);
    var ups := UpdatesOf(req);
    var i :| 0 <= i < |ups| && FieldOf(ups[i]) == Some(f);
    SomesMembers(s, ups[i]);
    var k :| 0 <= k < |s| && s[k] == Some(ups[i]);
    SlotsShape(req, k);
  }

  lemma SetIsMentioned(req: UpdateRequest, f: Field)
    requires Sets(req, f)
    ensures Mentioned(UpdatesOf(req), f)
  {
    var s := Slots(req);
    var ups := UpdatesOf(req);
    SetsInOrder(req, f);
    var k :| 0 <= k < |Order| && Order[k] == f;
    SlotsShape(req, k);
    SomesMembers(s, s[k].value);
    var i :| 0 <= i < |ups| && ups[i] == s[k].value;
  }

  /** No two entries name the same field, so each is the last for its field. */
  lemma UpdatesNameOnce(req: UpdateRequest)
    ensures forall i :: 0 <= i < |UpdatesOf(req)| ==> LastFor(UpdatesOf(req), i)
  {
    var s := Slots(req);
    SlotsAll(req);
    assert Distinct(Order);
    SomesKeysDistinct(s, FieldOf);
  }

  /** Only the two enum slots can hold a refused entry. */
  lemma SlotRejects(req: UpdateRequest, k: int)
    requires 0 <= k < |Order|
    ensures Slots(req)[k].Some? && Rejects(Slots(req)[k].value) <==>
      (k == 3 && req.scheduleType.Some? && ParseType(req.scheduleType.value).None?)
      || (k == 4 && req.status.Some? && ParseStatus(req.status.value).None?)
  {
    if k < 7 {
      if k == 0 {} else if k == 1 {} else if k == 2 {} else if k == 3 {} else if k == 4 {}
      else if k == 5 {} else {}
    } else {
      if k == 7 {} else if k == 8 {} else if k == 9 {} else if k == 10 {} else if k == 11 {}
      else if k == 12 {} else {}
    }
  }

  /** An entry is refused exactly when the body carries an unknown enum string. */
  lemma UpdatesRejectEnums(req: UpdateRequest)
    ensures (exists i :: 0 <= i < |UpdatesOf(req)| && Rejects(UpdatesOf(req)[i])) <==> !EnumsKnown(req)
  {
    var s := Slots(req);
    var ups := UpdatesOf(req);
    if exists i :: 0 <= i < |ups| && Rejects(ups[i]) {
      var i :| 0 <= i < |ups| && Rejects(ups[i]);
      SomesMembers(s, ups[i]);
      var k :| 0 <= k < |s| && s[k] == Some(ups[i]);
      SlotRejects(req, k);
    }
    if !EnumsKnown(req) {
      var k := if req.scheduleType.Some? && ParseType(req.scheduleType.value).None? then 3 else 4;
      SlotRejects(req, k);
      SomesMembers(s, s[k].value);
      var i :| 0 <= i < |ups| && ups[i] == s[k].value;
    }
  }

  /** The schedule holds the value slot `k` of the body asks for, if any. */
  predicate HoldsAt(c: ScheduleConfig, req: UpdateRequest, k: int) {
    if k == 0 then req.name.Some? ==> c.name == req.name.value
    else if k == 1 then req.description.Some? ==> c.description == req.description.value
    else if k == 2 then req.backupTypes.Some? ==> c.backupTypes == req.backupTypes.value
    else if k == 3 then req.scheduleType.Some? ==> TypeName(c.scheduleType) == req.scheduleType.value
    else if k == 4 then req.status.Some? ==> StatusName(c.status) == req.status.value
    else if k == 5 then req.cronExpression.Some? ==> c.cronExpression == req.cronExpression
    else if k == 6 then req.intervalMinutes.Some? ==> c.intervalMinutes == req.intervalMinutes
    else if k == 7 then req.timeOfDay.Some? ==> c.timeOfDay == req.timeOfDay
    else if k == 8 then req.daysOfWeek.Some? ==> c.daysOfWeek == req.daysOfWeek
    else if k == 9 then req.daysOfMonth.Some? ==> c.daysOfMonth == req.daysOfMonth
    else if k == 10 then req.runDate.Some? ==> c.runDate == req.runDate
    else if k == 11 then req.sequentialExecution.Some? ==> c.sequentialExecution == req.sequentialExecution.value
    else if k == 12 then req.retryOnFailure.Some? ==> c.retryOnFailure == req.retryOnFailure.value
    else req.maxRetries.Some? ==> c.maxRetries == req.maxRetries.value
  }

  lemma SlotHolds(c: ScheduleConfig, req: UpdateRequest, k: int)
    requires 0 <= k < |Order|
    requires Slots(req)[k].Some? ==> Reflects(c, Slots(req)[k].value)
    ensures HoldsAt(c, req, k)
  {
    if k < 7 {
      if k == 0 {} else if k == 1 {} else if k == 2 {} else if k == 3 {} else if k == 4 {}
      else if k == 5 {} else {}
    } else {
      if k == 7 {} else if k == 8 {} else if k == 9 {} else if k == 10 {} else if k == 11 {}
      else if k == 12 {} else {}
    }
  }

  /** A completed update leaves the schedule holding every value the body gives,
      and every field the body leaves out (bar the two the update refreshes)
      as it was. */
  lemma UpdateAppliesRequest(st: Scheduler.BackupScheduler, id: string, req: UpdateRequest, now: string,
                             nextFire: Timing -> Option<string>)
    requires id in st.schedules
    requires Scheduler.UpdateSchedule(st, id, UpdatesOf(req), now, nextFire).outcome.Updated?
    ensures Holds(Scheduler.UpdateSchedule(st, id, UpdatesOf(req), now, nextFire).after.schedules[id], req)
    ensures forall f :: !Sets(req, f) && f != UpdatedAtField && f != NextRunField ==>
      Agree(st.schedules[id], Scheduler.UpdateSchedule(st, id, UpdatesOf(req), now, nextFire).after.schedules[id], f)
  {
    var s := Slots(req);
    var ups := UpdatesOf(req);
    var after := Scheduler.UpdateSchedule(st, id, ups, now, nextFire).after.schedules[id];
    SlotsAll(req);
    UpdatesNameOnce(req);
    forall k | 0 <= k < |Order| ensures HoldsAt(after, req, k) {
      if s[k].Some? {
        SomesMembers(s, s[k].value);
        var i :| 0 <= i < |ups| && ups[i] == s[k].value;
        Scheduler.UpdateSetsNamed(st, id, ups, now, nextFire, i);
      }
      SlotHolds(after, req, k);
    }
    forall f | !Sets(req, f) && f != UpdatedAtField && f != NextRunField
      ensures Agree(st.schedules[id], after, f)
    {
      UpdatesMention(req, f);
      Scheduler.UpdateKeepsUnnamed(st, id, ups, now, nextFire, f);
    }
  }

  /** What an endpoint answers, and the scheduler state it leaves behind. */
  datatype Answer = Answer(after: Scheduler.BackupScheduler, response: Result<ScheduleConfig, HttpError>)

  /** The scheduler's half of `PUT /api/schedules/{id}`, shared by both versions
      below once the body is known to be acceptable. */
  function ApplyUpdate(st: Scheduler.BackupScheduler, id: string, req: UpdateRequest, now: string,
                       nextFire: Timing -> Option<string>): (r: Answer)
    ensures (r.response == Failure(ScheduleNotFound)) <==> id !in st.schedules
    ensures id !in st.schedules ==> r.after == st
    ensures id in st.schedules ==> (r.response == Failure(InternalError) <==> !EnumsKnown(req))
    ensures r.response.Success? ==>
      && id in r.after.schedules && r.response.value == r.after.schedules[id]
      && r.response.value.updatedAt == now
      && Holds(r.response.value, req)
      && NextRunCurrent(r.response.value, nextFire)
  {
    var res := Scheduler.UpdateSchedule(st, id, UpdatesOf(req), now, nextFire);
    UpdatesRejectEnums(req);
    match res.outcome
    case NotFound => Answer(res.after, Failure(ScheduleNotFound))
    case Raised(_) => Answer(res.after, Failure(InternalError))
    case Updated(s) =>
      UpdateAppliesRequest(st, id, req, now, nextFire);
      Answer(res.after, Success(s))
  }

  /** `PUT /api/schedules/{id}` as written: the `ValueError` an unknown enum
      string raises inside the scheduler is not caught, so the answer is a
      server error while the entries before it stay applied. */
  function UpdateEndpoint(st: Scheduler.BackupScheduler, schedulerUp: bool, id: string, req: UpdateRequest,
                          now: string, nextFire: Timing -> Option<string>): (r: Answer)
    ensures !UpdateWithinBounds(req) ==> r == Answer(st, Failure(Unprocessable))
    ensures UpdateWithinBounds(req) && !schedulerUp ==> r == Answer(st, Failure(SchedulerDown))
    ensures UpdateWithinBounds(req) && schedulerUp ==>
      ((r.response == Failure(ScheduleNotFound)) <==> id !in st.schedules)
    ensures UpdateWithinBounds(req) && schedulerUp && id in st.schedules ==>
      ((r.response == Failure(InternalError)) <==> !EnumsKnown(req))
    ensures r.response.Success? ==>
      && id in r.after.schedules && r.response.value == r.after.schedules[id]
      && r.response.value.updatedAt == now
      && Holds(r.response.value, req)
  {
    if !UpdateWithinBounds(req) then Answer(st, Failure(Unprocessable))
    else if !schedulerUp then Answer(st, Failure(SchedulerDown))
    else ApplyUpdate(st, id, req, now, nextFire)
  }

  /** The detail of the `ValueError` for the first unknown enum string of the body. */
  function EnumError(req: UpdateRequest): HttpError {
    if req.scheduleType.Some? && ParseType(req.scheduleType.value).None? then
      HttpError(400, InvalidEnumMessage(req.scheduleType.value, "ScheduleType"))
    else
      HttpError(400, InvalidEnumMessage(req.status.GetOr(""), "ScheduleStatus"))
  }

  /** `PUT /api/schedules/{id}` as the creation endpoint's handling suggests it
      was meant to behave: an unknown enum string is a client error, and a
      refused update changes nothing. */
  function UpdateEndpointChecked(st: Scheduler.BackupScheduler, schedulerUp: bool, id: string,
                                 req: UpdateRequest, now: string, nextFire: Timing -> Option<string>)
    : (r: Answer)
    ensures r.response.Failure? ==> r.after == st
    ensures r.response.Success? <==>
      UpdateWithinBounds(req) && schedulerUp && id in st.schedules && EnumsKnown(req)
    ensures UpdateWithinBounds(req) && schedulerUp && id in st.schedules && !EnumsKnown(req) ==>
      r.response == Failure(EnumError(req))
    ensures r.response.Success? ==>
      && id in r.after.schedules && r.response.value == r.after.schedules[id]
      && r.response.value.updatedAt == now
      && Holds(r.response.value, req)
  {
    if !UpdateWithinBounds(req) then Answer(st, Failure(Unprocessable))
    else if !schedulerUp then Answer(st, Failure(SchedulerDown))
    else if id in st.schedules && !EnumsKnown(req) then Answer(st, Failure(EnumError(req)))
    else ApplyUpdate(st, id, req, now, nextFire)
  }

  /** A body that renames a schedule and gives an unknown status. */
  const RenameWithBadStatus: UpdateRequest :=
    UpdateRequest(Some("nightly"), None, None, None, Some("bogus"), None, None,
                  None, None, None, None, None, None, None)

  lemma RenameWithBadStatusEntries()
    ensures UpdatesOf(RenameWithBadStatus) == [SetName("nightly"), SetStatus("bogus")]
  {
    var req := RenameWithBadStatus;
    var s := Slots(req);
    assert s[0] == Some(SetName("nightly"));
    assert s[4] == Some(SetStatus("bogus"));
    SlotsAll(req);
    NoneSlots(req, 1, 4);
    NoneSlots(req, 5, |Order|);
    PickTwo(s, 0, 4);
  }

  /** Slots `lo` up to `hi` of the sample body are empty. */
  lemma NoneSlots(req: UpdateRequest, lo: int, hi: int)
    requires req == RenameWithBadStatus && 0 <= lo <= hi <= |Order|
    requires lo > 4 || hi <= 4
    requires lo > 0
    ensures forall i :: lo <= i < hi ==> Slots(req)[i].None?
  {
    SlotsAll(req);
  }

  /** Dropping the `None`s of a sequence with exactly two `Some`s, at `i` and `j`. */
  lemma PickTwo<T>(s: seq<Option<T>>, i: int, j: int)
    requires 0 <= i < j < |s| && s[i].Some? && s[j].Some?
    requires forall k :: 0 <= k < |s| && k != i && k != j ==> s[k].None?
    ensures Somes(s) == [s[i].value, s[j].value]
  {
    assert s == s[..i] + [s[i]] + s[i + 1..j] + [s[j]] + s[j + 1..];
    SomesAppend(s[..i] + [s[i]] + s[i + 1..j] + [s[j]], s[j + 1..]);
    SomesAppend(s[..i] + [s[i]] + s[i + 1..j], [s[j]]);
    SomesAppend(s[..i] + [s[i]], s[i + 1..j]);
    SomesAppend(s[..i], [s[i]]);
    SomesNone(s[..i]);
    SomesNone(s[i + 1..j]);
    SomesNone(s[j + 1..]);
  }

  /** The loop applies the new name, then stops at the unknown status. */
  lemma RenameWithBadStatusApplied(c: ScheduleConfig)
    ensures ApplyFields(c, UpdatesOf(RenameWithBadStatus))
      == Applied(c.(name := "nightly"), Some(InvalidEnumMessage("bogus", "ScheduleStatus")))
  {
    var ups := UpdatesOf(RenameWithBadStatus);
    RenameWithBadStatusEntries();
    var c1 := c.(name := "nightly");
    assert ApplyField(c, ups[0]) == Success(c1);
    assert ups[1..] == [SetStatus("bogus")];
    BogusStatusStops(c1);
  }

  /** An update list holding only the unknown status stops at once. */
  lemma BogusStatusStops(c: ScheduleConfig)
    ensures ApplyFields(c, [SetStatus("bogus")]) == Applied(c, Some(InvalidEnumMessage("bogus", "ScheduleStatus")))
  {
    assert ParseStatus("bogus").None?;
    assert ApplyField(c, SetStatus("bogus")) == Failure(InvalidEnumMessage("bogus", "ScheduleStatus"));
  }

  /** The endpoint as written answers that body with a server error, yet the
      schedule has been renamed. */
  lemma UpdateHalfApplied(st: Scheduler.BackupScheduler, id: string, now: string,
                          nextFire: Timing -> Option<string>)
    requires id in st.schedules && st.schedules[id].name != "nightly"
    ensures UpdateEndpoint(st, true, id, RenameWithBadStatus, now, nextFire).response == Failure(InternalError)
    ensures UpdateEndpoint(st, true, id, RenameWithBadStatus, now, nextFire).after.schedules[id].name == "nightly"
  {
    var req := RenameWithBadStatus;
    var c := st.schedules[id];
    RenameWithBadStatusApplied(c);
    var res := Scheduler.UpdateSchedule(st, id, UpdatesOf(req), now, nextFire);
    assert res.outcome.Raised?;
    assert res.after.schedules[id] == c.(name := "nightly");
    assert UpdateWithinBounds(req);
    assert UpdateEndpoint(st, true, id, req, now, nextFire) == ApplyUpdate(st, id, req, now, nextFire);
  }
}
