/** `ScheduleHistory` (backend/scheduler.py): a bounded, newest-first log of
    schedule executions with prefix queries. */
module History {
  import opened Wrappers
  import opened Seqs

  /** One execution record. The random `id` and the clock `timestamp` are given
      by the caller; the wall-clock duration is not modelled. */
  datatype Entry = Entry(
    id: string,
    scheduleId: string,
    scheduleName: string,
    backupTypes: seq<string>,
    status: string,
    message: string,
    timestamp: string)

  datatype ScheduleHistory = ScheduleHistory(maxEntries: nat, entries: seq<Entry>)

  const DefaultMaxEntries: nat := 100

  function Empty(): ScheduleHistory {
    ScheduleHistory(DefaultMaxEntries, [])
  }

  /** The log never holds more than its bound. */
  predicate Valid(h: ScheduleHistory) {
    |h.entries| <= h.maxEntries
  }

  /** `add`: insert at index 0, then cut the list back to `max_entries`. */
  function Add(h: ScheduleHistory, e: Entry): (r: ScheduleHistory)
    ensures r.maxEntries == h.maxEntries
    ensures |r.entries| == Min(|h.entries| + 1, h.maxEntries)
    ensures h.maxEntries > 0 ==> r.entries[0] == e
    ensures forall i :: 1 <= i < |r.entries| ==> r.entries[i] == h.entries[i - 1]
    ensures Valid(r)
  {
    var entries := [e] + h.entries;
    if |entries| > h.maxEntries then ScheduleHistory(h.maxEntries, entries[..h.maxEntries])
    else ScheduleHistory(h.maxEntries, entries)
  }

  /** Adding entries one after the other, oldest first. */
  function AddAll(h: ScheduleHistory, es: seq<Entry>): ScheduleHistory
    decreases |es|
  {
    if |es| == 0 then h else AddAll(Add(h, es[0]), es[1..])
  }

  function Reverse<T>(s: seq<T>): (r: seq<T>)
    ensures |r| == |s|
    ensures forall i :: 0 <= i < |s| ==> r[i] == s[|s| - 1 - i]
    decreases |s|
  {
    if |s| == 0 then [] else Reverse(s[1..]) + [s[0]]
  }

  /** After any series of additions to an empty log, the log holds the newest
      `min(n, max_entries)` entries, newest first. */
  lemma AddAllKeepsNewest(maxEntries: nat, es: seq<Entry>)
    ensures AddAll(ScheduleHistory(maxEntries, []), es).entries == PyPrefix(Reverse(es), maxEntries)
  {
    AddAllFrom(ScheduleHistory(maxEntries, []), es);
    assert Reverse(es) + [] == Reverse(es);
  }

  lemma {:induction false} AddAllFrom(h: ScheduleHistory, es: seq<Entry>)
    requires Valid(h)
    ensures AddAll(h, es).entries == PyPrefix(Reverse(es) + h.entries, h.maxEntries)
    decreases |es|
  {
    if |es| == 0 {
      assert Reverse(es) + h.entries == h.entries;
    } else {
      var h1 := Add(h, es[0]);
      AddAllFrom(h1, es[1..]);
      var n := h.maxEntries;
      var full := Reverse(es) + h.entries;
      assert Reverse(es) == Reverse(es[1..]) + [es[0]];
      assert full == Reverse(es[1..]) + ([es[0]] + h.entries);
      assert h1.entries == PyPrefix([es[0]] + h.entries, n);
      PrefixOfAppend(Reverse(es[1..]), [es[0]] + h.entries, n);
    }
  }

  /** Cutting the tail before appending it does not change a cut of the whole. */
  lemma PrefixOfAppend<T>(a: seq<T>, b: seq<T>, n: nat)
    ensures PyPrefix(a + PyPrefix(b, n), n) == PyPrefix(a + b, n)
  {
    var lhs := PyPrefix(a + PyPrefix(b, n), n);
    var rhs := PyPrefix(a + b, n);
    assert |lhs| == |rhs|;
    forall i | 0 <= i < |lhs|
      ensures lhs[i] == rhs[i]
    {
      if i >= |a| {
        assert lhs[i] == PyPrefix(b, n)[i - |a|];
      }
    }
  }

  /** `get_recent(limit)`: `entries[:limit]`. */
  function GetRecent(h: ScheduleHistory, limit: int): (r: seq<Entry>)
    ensures |r| <= |h.entries| && r == h.entries[..|r|]
    ensures limit >= 0 ==> |r| == Min(limit, |h.entries|)
    ensures limit < 0 ==> |r| == Max(0, |h.entries| + limit)
  {
    PyPrefix(h.entries, limit)
  }

  /** The entries of one schedule, newest first. */
  function OfSchedule(entries: seq<Entry>, scheduleId: string): seq<Entry> {
    Filter(entries, (e: Entry) => e.scheduleId == scheduleId)
  }

  /** `get_by_schedule(schedule_id, limit)`: the newest `limit` entries of that
      schedule, in log order. */
  function GetBySchedule(h: ScheduleHistory, scheduleId: string, limit: int): (r: seq<Entry>)
    ensures forall i :: 0 <= i < |r| ==> r[i].scheduleId == scheduleId
    ensures IsSubsequence(r, h.entries)
    ensures limit >= 0 ==> |r| == Min(limit, |OfSchedule(h.entries, scheduleId)|)
    ensures limit < 0 ==> |r| == Max(0, |OfSchedule(h.entries, scheduleId)| + limit)
    ensures |r| <= |OfSchedule(h.entries, scheduleId)| && r == OfSchedule(h.entries, scheduleId)[..|r|]
  {
    var all := OfSchedule(h.entries, scheduleId);
    FilterIsSubsequence(h.entries, (e: Entry) => e.scheduleId == scheduleId);
    var r := PyPrefix(all, limit);
    PrefixOfSubsequence(all, h.entries, |r|);
    r
  }

  /** Every entry of the schedule in the log is returned once the limit covers them. */
  lemma GetByScheduleComplete(h: ScheduleHistory, scheduleId: string, limit: int, e: Entry)
    requires e in h.entries && e.scheduleId == scheduleId
    requires limit >= |h.entries|
    ensures e in GetBySchedule(h, scheduleId, limit)
  {
    FilterMembers(h.entries, (e: Entry) => e.scheduleId == scheduleId, e);
  }

  /** `get_history`: one schedule's entries when a non-empty id is given,
      otherwise the most recent entries of all schedules. */
  function GetHistory(h: ScheduleHistory, scheduleId: Option<string>, limit: int): (r: seq<Entry>)
    ensures scheduleId.Some? && scheduleId.value != "" ==>
      var all := OfSchedule(h.entries, scheduleId.value);
      (forall i :: 0 <= i < |r| ==> r[i].scheduleId == scheduleId.value)
      && |r| <= |all| && r == all[..|r|]
      && (limit >= 0 ==> |r| == Min(limit, |all|))
      && (limit < 0 ==> |r| == Max(0, |all| + limit))
    ensures !(scheduleId.Some? && scheduleId.value != "") ==>
      |r| <= |h.entries| && r == h.entries[..|r|]
      && (limit >= 0 ==> |r| == Min(limit, |h.entries|))
      && (limit < 0 ==> |r| == Max(0, |h.entries| + limit))
    ensures IsSubsequence(r, h.entries)
  {
    if scheduleId.Some? && scheduleId.value != "" then GetBySchedule(h, scheduleId.value, limit)
    else
      var r := GetRecent(h, limit);
      PrefixIsSubsequence(h.entries, |r|);
      r
  }
}
