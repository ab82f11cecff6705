/**
 * The backup service (scripts/backup.ts): one service at a time over the
 * backup_run table, with requests arriving, restarts, and a stop at any point.
 * A run of the service is a sequence of ticks; a tick decides, marks its row
 * running and starts the work, which ends later or never. A row's id is its
 * place in rows. Times are milliseconds since 1970 on one clock.
 */
module Backup {
  import opened Names
  import opened Cron

  datatype Kind = Dump | Verify
  datatype Trigger = Schedule | Manual
  datatype Status = Requested | Running | Succeeded | Failed

  datatype Row = Row(kind: Kind, trigger: Trigger, status: Status, requestedAt: nat, startedAt: Option<nat>)

  /** What a tick reads from backup_setting. The schedule is fixed for a whole run. */
  datatype Setting = Setting(enabled: bool, verifyWeekday: Option<nat>, local: bool)

  /** The service's own memory, gone when it stops. */
  datatype Service = Service(lastScheduled: Option<nat>, lastVerifyDay: Option<int>, bootedAt: nat, busy: Option<nat>)

  /** One scheduled backup: the slot that was due, when it was found due, and its row. */
  datatype Firing = Firing(slot: nat, at: nat, row: nat)

  /** fired and rehearsed keep what the scheduler decided; the service never reads them. */
  datatype State = State(rows: seq<Row>, service: Option<Service>, clock: nat, fired: seq<Firing>, rehearsed: seq<nat>)

  datatype Action =
    | Request(kind: Kind)
    | Wait(ms: nat)
    | Boot(zone: int)                    // the database session's time zone, in milliseconds ahead of UTC
    | Tick(setting: Setting, lag: nat)   // lag: from the decision to the row's started_at
    | Finish(ok: bool)
    | Stop

  const DAY: nat := 86_400_000

  function Day(ms: nat): nat { ms / DAY }
  function Weekday(ms: nat): nat { (Day(ms) + 4) % 7 }
  function UtcHour(ms: nat): nat { ms / 3_600_000 % 24 }

  const Fresh := State([], None, 0, [], [])

  function Max(a: Option<nat>, b: Option<nat>): Option<nat> {
    if a.None? then b else if b.None? || b.value <= a.value then a else b
  }

  /** SELECT max(started_at) over the scheduled rows of one kind. */
  function LastStarted(rows: seq<Row>, kind: Kind): Option<nat> {
    if rows == [] then None
    else
      var last := rows[|rows| - 1];
      Max(LastStarted(rows[..|rows| - 1], kind), if last.kind == kind && last.trigger.Schedule? then last.startedAt else None)
  }

  /** SELECT ... WHERE status = 'requested' ORDER BY requested_at LIMIT 1. */
  function OldestRequest(rows: seq<Row>): (r: Option<nat>)
    ensures r.Some? ==> r.value < |rows| && rows[r.value].status.Requested?
  {
    if rows == [] then None
    else
      var k := |rows| - 1;
      var before := OldestRequest(rows[..k]);
      if rows[k].status.Requested? && (before.None? || rows[k].requestedAt < rows[before.value].requestedAt) then Some(k)
      else before
  }

  lemma {:induction false} OldestIsOldest(rows: seq<Row>)
    ensures var o := OldestRequest(rows);
      && (o.None? <==> forall i :: 0 <= i < |rows| ==> !rows[i].status.Requested?)
      && (o.Some? ==> forall i :: 0 <= i < |rows| && rows[i].status.Requested? ==> rows[o.value].requestedAt <= rows[i].requestedAt)
  {
    if rows != [] { OldestIsOldest(rows[..|rows| - 1]); }
  }

  /** Restart recovery: whatever was running is failed. */
  function Recovered(rows: seq<Row>): seq<Row> {
    seq(|rows|, i requires 0 <= i < |rows| => if rows[i].status.Running? then rows[i].(status := Failed) else rows[i])
  }

  /** A time's day as the database session writes it. */
  function LocalDay(ms: nat, zone: int): int { (ms + zone) / DAY }

  function Booted(s: State, zone: int): State {
    var rows := Recovered(s.rows);
    var verified := LastStarted(rows, Verify);
    s.(rows := rows,
       service := Some(Service(LastStarted(rows, Dump), if verified.Some? then Some(LocalDay(verified.value, zone)) else None, s.clock, None)))
  }

  /** The first slot after the last scheduled backup, or after the boot if there has been none. */
  ghost function Due(spec: Spec, v: Service): (r: Option<nat>)
    ensures IsNext(spec, Since(v), r)
  {
    if t :| Since(v) < t <= Since(v) + HORIZON && Slot(spec, t) then FirstSlot(spec, Since(v), t) else None
  }

  function Since(v: Service): nat { if v.lastScheduled.Some? then v.lastScheduled.value else v.bootedAt }

  ghost function FirstSlot(spec: Spec, after: nat, t: nat): (r: Option<nat>)
    requires after < t <= after + HORIZON && Slot(spec, t)
    ensures IsNext(spec, after, r)
    decreases t
  {
    if u :| after < u < t && Slot(spec, u) then FirstSlot(spec, after, u) else Some(t)
  }

  predicate RehearsalDue(setting: Setting, v: Service, now: nat) {
    setting.verifyWeekday == Some(Weekday(now)) && v.lastVerifyDay != Some(Day(now)) && setting.local && UtcHour(now) >= 4
  }

  function Started(s: State, kind: Kind, lag: nat): State {
    s.(rows := s.rows + [Row(kind, Schedule, Running, s.clock, Some(s.clock + lag))], clock := s.clock + lag)
  }

  ghost function Ticked(spec: Spec, s: State, v: Service, setting: Setting, lag: nat): State {
    var request := OldestRequest(s.rows);
    var due := Due(spec, v);
    if request.Some? && request.value < |s.rows| then
      var id := request.value;
      s.(rows := s.rows[id := s.rows[id].(status := Running, startedAt := Some(s.clock + lag))], clock := s.clock + lag,
         service := Some(v.(busy := Some(id))))
    else if setting.enabled && due.None? then s   // nextRun throws: the tick is logged as failed
    else if setting.enabled && due.value <= s.clock then
      Started(s, Dump, lag).(service := Some(v.(lastScheduled := Some(s.clock), busy := Some(|s.rows|))),
                             fired := s.fired + [Firing(due.value, s.clock, |s.rows|)])
    else if setting.enabled && RehearsalDue(setting, v, s.clock) then
      Started(s, Verify, lag).(service := Some(v.(lastVerifyDay := Some(Day(s.clock)), busy := Some(|s.rows|))),
                               rehearsed := s.rehearsed + [Day(s.clock)])
    else s
  }

  function Finished(s: State, v: Service, ok: bool): State {
    if v.busy.Some? && v.busy.value < |s.rows| then
      var id := v.busy.value;
      s.(rows := s.rows[id := s.rows[id].(status := if ok then Succeeded else Failed)], service := Some(v.(busy := None)))
    else s
  }

  ghost function Step(spec: Spec, s: State, a: Action): State {
    match a
    case Request(kind) => s.(rows := s.rows + [Row(kind, Manual, Requested, s.clock, None)])
    case Wait(ms) => s.(clock := s.clock + ms)
    case Boot(zone) => if s.service.None? then Booted(s, zone) else s
    case Tick(setting, lag) =>
      if s.service.Some? && s.service.value.busy.None? then Ticked(spec, s, s.service.value, setting, lag) else s
    case Finish(ok) => if s.service.Some? then Finished(s, s.service.value, ok) else s
    case Stop => s.(service := None)
  }

  ghost function Exec(spec: Spec, acts: seq<Action>): State {
    if acts == [] then Fresh else Step(spec, Exec(spec, acts[..|acts| - 1]), acts[|acts| - 1])
  }

  /* ---- At most one row is running ---- */

  ghost predicate OneRunning(s: State) {
    && (forall i, j :: 0 <= i < j < |s.rows| ==> !(s.rows[i].status.Running? && s.rows[j].status.Running?))
    && (s.service.Some? ==> forall i :: 0 <= i < |s.rows| && s.rows[i].status.Running? ==> s.service.value.busy == Some(i))
    && (s.service.Some? && s.service.value.busy.Some? ==>
          s.service.value.busy.value < |s.rows| && s.rows[s.service.value.busy.value].status.Running?)
  }

  lemma OneRunningStep(spec: Spec, s: State, a: Action)
    requires OneRunning(s)
    ensures OneRunning(Step(spec, s, a))
  {
    if a.Tick? && s.service.Some? && s.service.value.busy.None? { OneRunningTick(spec, s, a.setting, a.lag); }
  }

  lemma OneRunningTick(spec: Spec, s: State, setting: Setting, lag: nat)
    requires OneRunning(s) && s.service.Some? && s.service.value.busy.None?
    ensures OneRunning(Ticked(spec, s, s.service.value, setting, lag))
  {
    OldestIsOldest(s.rows);
  }

  lemma {:induction false} AtMostOneRunning(spec: Spec, acts: seq<Action>)
    ensures OneRunning(Exec(spec, acts))
  {
    if acts != [] {
      AtMostOneRunning(spec, acts[..|acts| - 1]);
      OneRunningStep(spec, Exec(spec, acts[..|acts| - 1]), acts[|acts| - 1]);
    }
  }

  /* ---- Rows only move forward ---- */

  predicate Forward(a: Status, b: Status) {
    a == b || (a.Requested? && b.Running?) || (a.Running? && (b.Succeeded? || b.Failed?))
  }

  /** In one step no row is lost or changes what it is for, and its status only moves on; a new row is requested or running. */
  ghost predicate MovesOn(s: State, t: State) {
    && |s.rows| <= |t.rows|
    && (forall i :: 0 <= i < |s.rows| ==>
          && Forward(s.rows[i].status, t.rows[i].status)
          && t.rows[i].kind == s.rows[i].kind && t.rows[i].trigger == s.rows[i].trigger
          && t.rows[i].requestedAt == s.rows[i].requestedAt)
    && (forall i :: |s.rows| <= i < |t.rows| ==>
          if t.rows[i].trigger.Manual? then t.rows[i].status.Requested? else t.rows[i].status.Running?)
  }

  lemma {:induction false} RowsMoveForward(spec: Spec, acts: seq<Action>, a: Action)
    ensures MovesOn(Exec(spec, acts), Exec(spec, acts + [a]))
  {
    var s := Exec(spec, acts);
    assert (acts + [a])[..|acts|] == acts;
    AtMostOneRunning(spec, acts);
    OldestIsOldest(s.rows);
  }

  /** A restart leaves nothing running, and fails exactly what was. */
  lemma RestartLeavesNoneRunning(spec: Spec, acts: seq<Action>, zone: int)
    requires Exec(spec, acts).service.None?
    ensures var s, t := Exec(spec, acts), Exec(spec, acts + [Boot(zone)]);
      && |t.rows| == |s.rows|
      && forall i :: 0 <= i < |s.rows| ==> t.rows[i] == if s.rows[i].status.Running? then s.rows[i].(status := Failed) else s.rows[i]
  {
    assert (acts + [Boot(zone)])[..|acts|] == acts;
  }

  /* ---- How a row's work ended ---- */

  predicate WorksOn(s: State, r: nat) { s.service.Some? && s.service.value.busy == Some(r) }

  predicate HasStatus(s: State, r: nat, status: Status) { r < |s.rows| && s.rows[r].status == status }

  /** This action ends the work on the row. */
  predicate Ends(s: State, a: Action, r: nat, ok: bool) { a == Finish(ok) && WorksOn(s, r) }

  /** This action is a restart that finds the row running. */
  predicate Cuts(s: State, a: Action, r: nat) { a.Boot? && s.service.None? && HasStatus(s, r, Running) }

  ghost predicate EndedAt(spec: Spec, acts: seq<Action>, i: int, r: nat, ok: bool) {
    0 <= i < |acts| && Ends(Exec(spec, acts[..i]), acts[i], r, ok)
  }

  ghost predicate CutAt(spec: Spec, acts: seq<Action>, i: int, r: nat) {
    0 <= i < |acts| && Cuts(Exec(spec, acts[..i]), acts[i], r)
  }

  ghost predicate Ended(spec: Spec, acts: seq<Action>, r: nat, ok: bool) { exists i :: EndedAt(spec, acts, i, r, ok) }

  ghost predicate CutShort(spec: Spec, acts: seq<Action>, r: nat) { exists i :: CutAt(spec, acts, i, r) }

  lemma EndedLast(spec: Spec, acts: seq<Action>, r: nat, ok: bool)
    requires acts != []
    ensures var front, a := acts[..|acts| - 1], acts[|acts| - 1];
      Ended(spec, acts, r, ok) <==> Ended(spec, front, r, ok) || Ends(Exec(spec, front), a, r, ok)
  {
    var k := |acts| - 1;
    if i :| EndedAt(spec, acts[..k], i, r, ok) {
      assert acts[..k][..i] == acts[..i];
      assert EndedAt(spec, acts, i, r, ok);
    }
    if Ends(Exec(spec, acts[..k]), acts[k], r, ok) { assert EndedAt(spec, acts, k, r, ok); }
    if i :| EndedAt(spec, acts, i, r, ok) {
      if i < k {
        assert acts[..k][..i] == acts[..i];
        assert EndedAt(spec, acts[..k], i, r, ok);
      }
    }
  }

  lemma CutLast(spec: Spec, acts: seq<Action>, r: nat)
    requires acts != []
    ensures var front, a := acts[..|acts| - 1], acts[|acts| - 1];
      CutShort(spec, acts, r) <==> CutShort(spec, front, r) || Cuts(Exec(spec, front), a, r)
  {
    var k := |acts| - 1;
    if i :| CutAt(spec, acts[..k], i, r) {
      assert acts[..k][..i] == acts[..i];
      assert CutAt(spec, acts, i, r);
    }
    if Cuts(Exec(spec, acts[..k]), acts[k], r) { assert CutAt(spec, acts, k, r); }
    if i :| CutAt(spec, acts, i, r) {
      if i < k {
        assert acts[..k][..i] == acts[..i];
        assert CutAt(spec, acts[..k], i, r);
      }
    }
  }

  lemma StatusStep(spec: Spec, s: State, a: Action, r: nat)
    requires OneRunning(s)
    ensures var t := Step(spec, s, a);
      && (HasStatus(t, r, Succeeded) <==> HasStatus(s, r, Succeeded) || Ends(s, a, r, true))
      && (HasStatus(t, r, Failed) <==> HasStatus(s, r, Failed) || Ends(s, a, r, false) || Cuts(s, a, r))
  {
    OldestIsOldest(s.rows);
  }

  /**
   * Over any run: a row has succeeded exactly when work on it was ended well,
   * and failed exactly when it was ended badly or a restart found it running.
   */
  lemma {:induction false} StatusIsHowItEnded(spec: Spec, acts: seq<Action>, r: nat)
    ensures var s := Exec(spec, acts);
      && (HasStatus(s, r, Succeeded) <==> Ended(spec, acts, r, true))
      && (HasStatus(s, r, Failed) <==> Ended(spec, acts, r, false) || CutShort(spec, acts, r))
  {
    if acts != [] {
      var front, a := acts[..|acts| - 1], acts[|acts| - 1];
      StatusIsHowItEnded(spec, front, r);
      AtMostOneRunning(spec, front);
      StatusStep(spec, Exec(spec, front), a, r);
      EndedLast(spec, acts, r, true);
      EndedLast(spec, acts, r, false);
      CutLast(spec, acts, r);
    }
  }

  /** While a request waits, a tick serves the oldest one and no scheduled work. */
  lemma RequestsFirst(spec: Spec, acts: seq<Action>, setting: Setting, lag: nat)
    requires var s := Exec(spec, acts);
      && s.service.Some? && s.service.value.busy.None?
      && exists i :: 0 <= i < |s.rows| && s.rows[i].status.Requested?
    ensures var s, t := Exec(spec, acts), Exec(spec, acts + [Tick(setting, lag)]);
      && |t.rows| == |s.rows| && t.fired == s.fired && t.rehearsed == s.rehearsed
      && exists id :: 0 <= id < |s.rows| && s.rows[id].status.Requested? && t.rows[id].status.Running?
           && t.service.Some? && t.service.value.busy == Some(id)
           && (forall i :: 0 <= i < |s.rows| && s.rows[i].status.Requested? ==> s.rows[id].requestedAt <= s.rows[i].requestedAt)
           && (forall i :: 0 <= i < |s.rows| && i != id ==> t.rows[i] == s.rows[i])
  {
    var s := Exec(spec, acts);
    assert (acts + [Tick(setting, lag)])[..|acts|] == acts;
    OldestIsOldest(s.rows);
    var id := OldestRequest(s.rows).value;
    assert s.rows[id].status.Requested?;
  }

  /** Asked for at any time, even with no service, a backup waits as asked until a tick takes it up. */
  lemma {:induction false} RequestWaits(spec: Spec, acts: seq<Action>, kind: Kind, more: seq<Action>)
    requires forall a <- more :: !a.Tick?
    ensures var s, t := Exec(spec, acts), Exec(spec, acts + [Request(kind)] + more);
      |s.rows| < |t.rows| && t.rows[|s.rows|] == Row(kind, Manual, Requested, s.clock, None)
  {
    var first := acts + [Request(kind)];
    if more == [] {
      assert first[..|acts|] == acts && first + [] == first;
    } else {
      var k := |more| - 1;
      assert more[k] in more;
      RequestWaits(spec, acts, kind, more[..k]);
      AtMostOneRunning(spec, first + more[..k]);
      assert (first + more)[..|first + more| - 1] == first + more[..k];
    }
  }

  /** Turned off, the service starts nothing of its own. */
  lemma DisabledStartsNothing(spec: Spec, acts: seq<Action>, setting: Setting, lag: nat)
    requires !setting.enabled && forall i :: 0 <= i < |Exec(spec, acts).rows| ==> !Exec(spec, acts).rows[i].status.Requested?
    ensures Exec(spec, acts + [Tick(setting, lag)]) == Exec(spec, acts)
  {
    assert (acts + [Tick(setting, lag)])[..|acts|] == acts;
    OldestIsOldest(Exec(spec, acts).rows);
  }

  /** With nothing requested, an enabled tick starts a scheduled backup exactly when a slot has come since the last, within the search's five times 366 days. */
  lemma FiresWhenSlotPassed(spec: Spec, acts: seq<Action>, setting: Setting, lag: nat)
    requires var s := Exec(spec, acts);
      && s.service.Some? && s.service.value.busy.None? && setting.enabled
      && forall i :: 0 <= i < |s.rows| ==> !s.rows[i].status.Requested?
    ensures var s, t := Exec(spec, acts), Exec(spec, acts + [Tick(setting, lag)]);
      var last := Since(s.service.value);
      |t.fired| == |s.fired| + (if exists u :: last < u <= s.clock && u <= last + 158_112_000_000 && Slot(spec, u) then 1 else 0)
  {
    var s := Exec(spec, acts);
    assert (acts + [Tick(setting, lag)])[..|acts|] == acts;
    OldestIsOldest(s.rows);
    DueMeansSlot(spec, Since(s.service.value), Due(spec, s.service.value), s.clock);
  }

  /** With nothing requested and no slot come, an enabled tick rehearses exactly on the weekday set, from four in the morning UTC, once a day, with a local destination. */
  lemma {:induction false} RehearsesWhenDue(spec: Spec, acts: seq<Action>, s: State, setting: Setting, lag: nat, due: nat)
    requires s == Exec(spec, acts) && s.service.Some? && s.service.value.busy.None? && setting.enabled
    requires forall i :: 0 <= i < |s.rows| ==> !s.rows[i].status.Requested?
    requires IsNext(spec, Since(s.service.value), Some(due)) && due > s.clock
    ensures var t := Exec(spec, acts + [Tick(setting, lag)]);
      var today := s.clock / 86_400_000;
      && t.fired == s.fired
      && t.rehearsed == s.rehearsed +
           if setting.verifyWeekday == Some((today + 4) % 7) && s.service.value.lastVerifyDay != Some(today)
              && setting.local && s.clock % 86_400_000 >= 14_400_000 then [today] else []
  {
    ExecSnoc(spec, acts, Tick(setting, lag));
    RehearsesOrNot(spec, s, setting, lag, due);
  }

  lemma RehearsesOrNot(spec: Spec, s: State, setting: Setting, lag: nat, due: nat)
    requires s.service.Some? && setting.enabled && (forall i :: 0 <= i < |s.rows| ==> !s.rows[i].status.Requested?)
    requires IsNext(spec, Since(s.service.value), Some(due)) && due > s.clock
    ensures var t := Ticked(spec, s, s.service.value, setting, lag);
      var today := s.clock / 86_400_000;
      && t.fired == s.fired
      && t.rehearsed == s.rehearsed +
           if setting.verifyWeekday == Some((today + 4) % 7) && s.service.value.lastVerifyDay != Some(today)
              && setting.local && s.clock % 86_400_000 >= 14_400_000 then [today] else []
  {
    OldestIsOldest(s.rows);
    NextUnique(spec, Since(s.service.value), Some(due), Due(spec, s.service.value));
    HourOfDay(s.clock);
    assert s.rehearsed + [] == s.rehearsed;
  }

  lemma HourOfDay(ms: nat)
    ensures UtcHour(ms) >= 4 <==> ms % 86_400_000 >= 14_400_000
  {
    assert ms / 3_600_000 == ms / 86_400_000 * 24 + ms % 86_400_000 / 3_600_000;
  }

  /* ---- The schedule ---- */

  /** The service remembers a time no earlier than its last decision, across restarts too. */
  ghost predicate Remembers(s: State) {
    && (forall i :: 0 <= i < |s.fired| ==> FiredRow(s.rows, s.fired[i], s.clock))
    && (s.service.Some? ==> Since(s.service.value) <= s.clock && s.service.value.bootedAt <= s.clock)
    && (s.service.Some? && s.fired != [] ==>
          s.service.value.lastScheduled.Some? && s.fired[|s.fired| - 1].at <= s.service.value.lastScheduled.value)
    && (forall i :: 0 <= i < |s.rows| && s.rows[i].startedAt.Some? ==> s.rows[i].startedAt.value <= s.clock)
  }

  predicate FiredRow(rows: seq<Row>, f: Firing, clock: nat) {
    && f.row < |rows| && rows[f.row].kind.Dump? && rows[f.row].trigger.Schedule?
    && rows[f.row].startedAt.Some? && f.at <= rows[f.row].startedAt.value <= clock
  }

  /** Every slot fired is later than the decision before it, and no later than its own. */
  ghost predicate Spaced(spec: Spec, fired: seq<Firing>) {
    && (forall i :: 0 <= i < |fired| ==> Slot(spec, fired[i].slot) && fired[i].slot <= fired[i].at)
    && (forall i, j :: 0 <= i < j < |fired| ==> fired[i].at < fired[j].slot && fired[i].row < fired[j].row)
  }

  lemma {:induction false} LastStartedBounds(rows: seq<Row>, kind: Kind, i: nat)
    requires i < |rows| && rows[i].kind == kind && rows[i].trigger.Schedule? && rows[i].startedAt.Some?
    ensures LastStarted(rows, kind).Some? && rows[i].startedAt.value <= LastStarted(rows, kind).value
  {
    if i < |rows| - 1 { LastStartedBounds(rows[..|rows| - 1], kind, i); }
  }

  lemma {:induction false} LastStartedIsOne(rows: seq<Row>, kind: Kind)
    ensures var m := LastStarted(rows, kind);
      m.Some? ==> exists i :: 0 <= i < |rows| && rows[i].startedAt == m
  {
    if rows != [] {
      var k := |rows| - 1;
      LastStartedIsOne(rows[..k], kind);
      var m := LastStarted(rows, kind);
      if m.Some? {
        if rows[k].startedAt == m {
        } else {
          var i :| 0 <= i < k && rows[..k][i].startedAt == m;
          assert rows[i].startedAt == m;
        }
      }
    }
  }

  lemma BootRemembers(s: State, zone: int)
    requires Remembers(s) && s.service.None?
    ensures Remembers(Booted(s, zone))
  {
    var t := Booted(s, zone);
    LastStartedIsOne(t.rows, Dump);
    assert forall i :: 0 <= i < |s.rows| ==> t.rows[i].(status := Failed) == s.rows[i].(status := Failed);
    if s.fired != [] {
      var f := s.fired[|s.fired| - 1];
      assert FiredRow(s.rows, f, s.clock);
      LastStartedBounds(t.rows, Dump, f.row);
    }
  }

  /** A tick keeps every row for what it is, starts rows no later than its own clock, and adds at most its own decision. */
  lemma TickRows(spec: Spec, s: State, setting: Setting, lag: nat)
    requires s.service.Some? && forall i :: 0 <= i < |s.rows| && s.rows[i].startedAt.Some? ==> s.rows[i].startedAt.value <= s.clock
    requires forall i :: 0 <= i < |s.fired| ==> FiredRow(s.rows, s.fired[i], s.clock)
    ensures var t := Ticked(spec, s, s.service.value, setting, lag);
      && s.clock <= t.clock
      && (forall i :: 0 <= i < |t.rows| && t.rows[i].startedAt.Some? ==> t.rows[i].startedAt.value <= t.clock)
      && (forall i :: 0 <= i < |s.fired| ==> FiredRow(t.rows, s.fired[i], t.clock))
  {
    OldestIsOldest(s.rows);
    var t := Ticked(spec, s, s.service.value, setting, lag);
    forall i | 0 <= i < |s.fired| ensures FiredRow(t.rows, s.fired[i], t.clock) {
      assert FiredRow(s.rows, s.fired[i], s.clock);
    }
  }

  lemma TickRemembers(spec: Spec, s: State, setting: Setting, lag: nat)
    requires Remembers(s) && s.service.Some? && s.service.value.busy.None?
    ensures Remembers(Ticked(spec, s, s.service.value, setting, lag))
  {
    TickRows(spec, s, setting, lag);
  }

  lemma RemembersStep(spec: Spec, s: State, a: Action)
    requires Remembers(s)
    ensures Remembers(Step(spec, s, a))
  {
    var t := Step(spec, s, a);
    if a.Boot? && s.service.None? {
      BootRemembers(s, a.zone);
    } else if a.Tick? && s.service.Some? && s.service.value.busy.None? {
      TickRemembers(spec, s, a.setting, a.lag);
    } else {
      forall i | 0 <= i < |t.fired| ensures FiredRow(t.rows, t.fired[i], t.clock) {
        assert FiredRow(s.rows, s.fired[i], s.clock);
      }
    }
  }

  /** A firing later than all before it keeps the spacing. */
  lemma SpacedMore(spec: Spec, fired: seq<Firing>, f: Firing)
    requires Spaced(spec, fired) && Slot(spec, f.slot) && f.slot <= f.at
    requires fired != [] ==> fired[|fired| - 1].at < f.slot
    requires forall i :: 0 <= i < |fired| ==> fired[i].row < f.row
    ensures Spaced(spec, fired + [f])
  {
    var more, n := fired + [f], |fired|;
    forall i | 0 <= i < n ensures more[i].at < f.slot { assert i < n - 1 ==> fired[i].at < fired[n - 1].slot; }
  }

  lemma SpacedStep(spec: Spec, s: State, a: Action)
    requires Remembers(s) && Spaced(spec, s.fired)
    ensures Spaced(spec, Step(spec, s, a).fired)
  {
    var t := Step(spec, s, a);
    if t.fired != s.fired {
      var f := Firing(Due(spec, s.service.value).value, s.clock, |s.rows|);
      assert t.fired == s.fired + [f];
      forall i | 0 <= i < |s.fired| ensures s.fired[i].row < f.row { assert FiredRow(s.rows, s.fired[i], s.clock); }
      SpacedMore(spec, s.fired, f);
    }
  }

  lemma {:induction false} ScheduleInv(spec: Spec, acts: seq<Action>)
    ensures Remembers(Exec(spec, acts)) && Spaced(spec, Exec(spec, acts).fired)
  {
    if acts != [] {
      var s := Exec(spec, acts[..|acts| - 1]);
      ScheduleInv(spec, acts[..|acts| - 1]);
      RemembersStep(spec, s, acts[|acts| - 1]);
      SpacedStep(spec, s, acts[|acts| - 1]);
    }
  }

  /** A row the schedule made: its kind and trigger never change. */
  predicate Scheduled(rows: seq<Row>, r: nat) { r < |rows| && rows[r].kind.Dump? && rows[r].trigger.Schedule? }

  ghost predicate Decided(fired: seq<Firing>, r: nat) { exists i :: DecidedAt(fired, i, r) }

  ghost predicate DecidedAt(fired: seq<Firing>, i: int, r: nat) { 0 <= i < |fired| && fired[i].row == r }

  ghost predicate AllDecided(s: State) { forall r: nat :: Scheduled(s.rows, r) ==> Decided(s.fired, r) }

  lemma DecidedStep(spec: Spec, s: State, a: Action)
    requires AllDecided(s)
    ensures AllDecided(Step(spec, s, a))
  {
    var t := Step(spec, s, a);
    forall r: nat | Scheduled(t.rows, r) ensures Decided(t.fired, r) {
      if Scheduled(s.rows, r) {
        var i :| DecidedAt(s.fired, i, r);
        assert DecidedAt(t.fired, i, r);
      } else {
        OldestIsOldest(s.rows);
        assert DecidedAt(t.fired, |s.fired|, r);
      }
    }
  }

  lemma {:induction false} EveryRowDecided(spec: Spec, acts: seq<Action>)
    ensures AllDecided(Exec(spec, acts))
  {
    if acts != [] {
      EveryRowDecided(spec, acts[..|acts| - 1]);
      DecidedStep(spec, Exec(spec, acts[..|acts| - 1]), acts[|acts| - 1]);
    }
  }

  /** This row was made for this slot, which had come when it was decided, no later than the row's start. */
  predicate MadeFor(spec: Spec, s: State, f: Firing, r: nat) {
    && f in s.fired && f.row == r && FiredRow(s.rows, f, s.clock)
    && Slot(spec, f.slot) && f.slot <= f.at
  }

  /** Two rows made for two slots, the second after the decision on the first. */
  ghost predicate MadeApart(spec: Spec, s: State, q: nat, r: nat) {
    exists f, g :: MadeFor(spec, s, f, q) && MadeFor(spec, s, g, r) && f.at < g.slot
  }

  /**
   * Over any run, with failures, stops and restarts: every scheduled backup
   * row was made for a slot, and of any two the later's slot comes after the
   * decision on the earlier, so no slot ever yields two rows.
   */
  lemma {:induction false} NoSlotTwice(spec: Spec, acts: seq<Action>)
    ensures var s := Exec(spec, acts);
      && (forall r: nat :: Scheduled(s.rows, r) ==> exists f :: MadeFor(spec, s, f, r))
      && (forall f, g, r, q: nat :: MadeFor(spec, s, f, r) && MadeFor(spec, s, g, q) ==> (f == g <==> r == q) && (f.slot == g.slot <==> r == q))
      && (forall q: nat, r: nat :: Scheduled(s.rows, q) && Scheduled(s.rows, r) && q < r ==> MadeApart(spec, s, q, r))
  {
    var s := Exec(spec, acts);
    ScheduleInv(spec, acts);
    EveryRowDecided(spec, acts);
    forall r: nat | Scheduled(s.rows, r) ensures exists f :: MadeFor(spec, s, f, r) {
      var i :| DecidedAt(s.fired, i, r);
      FiringMade(spec, s, i);
    }
    forall q: nat, r: nat | Scheduled(s.rows, q) && Scheduled(s.rows, r) && q < r ensures MadeApart(spec, s, q, r) {
      var i :| DecidedAt(s.fired, i, q);
      var j :| DecidedAt(s.fired, j, r);
      FiringMade(spec, s, i);
      FiringMade(spec, s, j);
      FiringsInOrder(spec, s, i, j);
    }
    forall f, g, r: nat, q: nat | MadeFor(spec, s, f, r) && MadeFor(spec, s, g, q)
      ensures (f == g <==> r == q) && (f.slot == g.slot <==> r == q)
    {
      MadeOnce(spec, s, f, g);
    }
  }

  lemma MadeOnce(spec: Spec, s: State, f: Firing, g: Firing)
    requires Spaced(spec, s.fired) && f in s.fired && g in s.fired
    ensures (f == g <==> f.row == g.row) && (f.slot == g.slot <==> f.row == g.row)
  {
    var i :| 0 <= i < |s.fired| && s.fired[i] == f;
    var j :| 0 <= j < |s.fired| && s.fired[j] == g;
    if i < j { FiringsInOrder(spec, s, i, j); } else if j < i { FiringsInOrder(spec, s, j, i); }
  }

  lemma FiringMade(spec: Spec, s: State, i: nat)
    requires Remembers(s) && Spaced(spec, s.fired) && i < |s.fired|
    ensures MadeFor(spec, s, s.fired[i], s.fired[i].row)
  {
  }

  /** Rows are made in the order of the decisions. */
  lemma FiringsInOrder(spec: Spec, s: State, i: nat, j: nat)
    requires Spaced(spec, s.fired) && i < |s.fired| && j < |s.fired| && (i < j || s.fired[i].row < s.fired[j].row)
    ensures i < j && s.fired[i].at < s.fired[j].slot && s.fired[i].slot < s.fired[j].slot && s.fired[i].row < s.fired[j].row
  {
  }

  /* A slot every minute, for a run in which the rows' own started_at has no slot between. */

  const EveryMinute := Spec(set m | 0 <= m < 60, set h | 0 <= h < 24, {}, set m | 1 <= m <= 12, {}, false, false)

  lemma MinuteSlots(t: nat)
    ensures Slot(EveryMinute, t) <==> t % MINUTE == 0
  {
    DateInMonth(DayOf(t / MINUTE));
  }

  lemma NoMinuteBetween(after: nat, t: nat)
    requires after < t < (after / MINUTE + 1) * MINUTE
    ensures t % MINUTE != 0
  {
    assert t / MINUTE == after / MINUTE;
  }

  lemma NextMinuteIs(after: nat)
    ensures IsNext(EveryMinute, after, Some((after / MINUTE + 1) * MINUTE))
  {
    var next := (after / MINUTE + 1) * MINUTE;
    assert next % MINUTE == 0;
    MinuteSlots(next);
    forall t | after < t < next ensures !Slot(EveryMinute, t) {
      NoMinuteBetween(after, t);
      MinuteSlots(t);
    }
  }

  lemma NextMinute(after: nat, v: Service)
    requires Since(v) == after
    ensures Due(EveryMinute, v) == Some((after / MINUTE + 1) * MINUTE)
  {
    NextMinuteIs(after);
    NextUnique(EveryMinute, after, Some((after / MINUTE + 1) * MINUTE), Due(EveryMinute, v));
  }

  const On := Setting(true, None, true)
  const FirstRow := Row(Dump, Schedule, Running, 119_000, Some(121_000))

  lemma ExecSnoc(spec: Spec, acts: seq<Action>, a: Action)
    ensures Exec(spec, acts + [a]) == Step(spec, Exec(spec, acts), a)
  {
    assert (acts + [a])[..|acts|] == acts;
  }

  lemma FirstMinute()
    ensures Exec(EveryMinute, [Boot(0), Wait(119_000), Tick(On, 2_000)])
         == State([FirstRow], Some(Service(Some(119_000), None, 0, Some(0))), 121_000, [Firing(60_000, 119_000, 0)], [])
  {
    assert Exec(EveryMinute, []) == Fresh;
    ExecSnoc(EveryMinute, [], Boot(0));
    ExecSnoc(EveryMinute, [Boot(0)], Wait(119_000));
    ExecSnoc(EveryMinute, [Boot(0), Wait(119_000)], Tick(On, 2_000));
    assert [] + [Boot(0)] == [Boot(0)] && [Boot(0)] + [Wait(119_000)] == [Boot(0), Wait(119_000)];
    assert [Boot(0), Wait(119_000)] + [Tick(On, 2_000)] == [Boot(0), Wait(119_000), Tick(On, 2_000)];
    NextMinute(0, Service(None, None, 0, None));
  }

  /**
   * A slot that comes while a row is being inserted is served by the next row,
   * so two rows' started_at may have no slot between them. Here the second
   * minute's slot falls between the first row's decision and its start.
   */
  lemma StartsMayTouch()
    ensures var s := Exec(EveryMinute, [Boot(0), Wait(119_000), Tick(On, 2_000), Finish(true), Tick(On, 0)]);
      && s.fired == [Firing(60_000, 119_000, 0), Firing(120_000, 121_000, 1)]
      && |s.rows| == 2 && s.rows[0].startedAt == s.rows[1].startedAt == Some(121_000)
  {
    FirstMinute();
    var acts := [Boot(0), Wait(119_000), Tick(On, 2_000)];
    ExecSnoc(EveryMinute, acts, Finish(true));
    assert acts + [Finish(true)] == [Boot(0), Wait(119_000), Tick(On, 2_000), Finish(true)];
    var v := Service(Some(119_000), None, 0, None);
    var done := FirstRow.(status := Succeeded);
    assert Exec(EveryMinute, acts + [Finish(true)]) == State([done], Some(v), 121_000, [Firing(60_000, 119_000, 0)], []);
    ExecSnoc(EveryMinute, acts + [Finish(true)], Tick(On, 0));
    assert acts + [Finish(true)] + [Tick(On, 0)] == [Boot(0), Wait(119_000), Tick(On, 2_000), Finish(true), Tick(On, 0)];
    NextMinute(119_000, v);
    assert OldestRequest([done]) == None;
  }

  /* When there is a slot between two scheduled rows' starts. */

  ghost predicate RequestsAreManual(s: State) {
    forall i :: 0 <= i < |s.rows| && s.rows[i].status.Requested? ==> s.rows[i].trigger.Manual?
  }

  lemma ManualRequestsStep(spec: Spec, s: State, a: Action)
    requires RequestsAreManual(s)
    ensures RequestsAreManual(Step(spec, s, a))
  {
    var t := Step(spec, s, a);
    forall i | 0 <= i < |t.rows| && t.rows[i].status.Requested? ensures t.rows[i].trigger.Manual? {
      if i < |s.rows| { assert t.rows[i] == s.rows[i]; }
    }
  }

  lemma {:induction false} ManualRequests(spec: Spec, acts: seq<Action>)
    ensures RequestsAreManual(Exec(spec, acts))
  {
    if acts != [] {
      ManualRequests(spec, acts[..|acts| - 1]);
      ManualRequestsStep(spec, Exec(spec, acts[..|acts| - 1]), acts[|acts| - 1]);
    }
  }

  /** A step only adds to the decisions, and leaves every scheduled row what it is and when it started. */
  ghost predicate Continues(s: State, t: State) {
    && s.fired <= t.fired && |s.rows| <= |t.rows|
    && (forall i :: 0 <= i < |s.rows| && s.rows[i].trigger.Schedule? ==> SameStart(s.rows[i], t.rows[i]))
  }

  predicate SameStart(a: Row, b: Row) { b.kind == a.kind && b.trigger == a.trigger && b.startedAt == a.startedAt }

  lemma StepContinues(spec: Spec, s: State, a: Action)
    requires RequestsAreManual(s)
    ensures Continues(s, Step(spec, s, a))
  {
    OldestIsOldest(s.rows);
  }

  lemma {:induction false} RunContinues(spec: Spec, acts: seq<Action>, more: seq<Action>)
    ensures Continues(Exec(spec, acts), Exec(spec, acts + more))
  {
    if more == [] {
      assert acts + [] == acts;
    } else {
      var k := |more| - 1;
      RunContinues(spec, acts, more[..k]);
      ManualRequests(spec, acts + more[..k]);
      StepContinues(spec, Exec(spec, acts + more[..k]), more[k]);
      ExecSnoc(spec, acts + more[..k], more[k]);
      assert acts + more[..k] + [more[k]] == acts + more;
    }
  }

  /** The slot g was made for lies within the search's reach of f's decision, or after f's row had started. */
  predicate Follows(rows: seq<Row>, f: Firing, g: Firing) {
    && f.row < |rows| && rows[f.row].startedAt.Some?
    && (g.slot <= f.at + HORIZON || rows[f.row].startedAt.value < g.slot)
  }

  ghost predicate Followed(s: State) {
    forall i, j :: 0 <= i < j < |s.fired| && j == i + 1 ==> Follows(s.rows, s.fired[i], s.fired[j])
  }

  /** The service counts from its last decision, or after a restart from a start no earlier than that row's. */
  predicate Recalls(s: State) {
    s.service.Some? && s.fired != [] ==>
      var f, last := s.fired[|s.fired| - 1], s.service.value.lastScheduled;
      && f.row < |s.rows| && s.rows[f.row].startedAt.Some? && last.Some?
      && (last.value == f.at || s.rows[f.row].startedAt.value <= last.value)
  }

  lemma BootRecalls(s: State, zone: int)
    requires Remembers(s) && s.service.None?
    ensures Recalls(Booted(s, zone))
  {
    var t := Booted(s, zone);
    if s.fired != [] {
      var f := s.fired[|s.fired| - 1];
      assert FiredRow(s.rows, f, s.clock);
      LastStartedBounds(t.rows, Dump, f.row);
    }
  }

  lemma TickRecalls(spec: Spec, s: State, setting: Setting, lag: nat)
    requires Remembers(s) && Recalls(s) && s.service.Some? && RequestsAreManual(s)
    ensures Recalls(Ticked(spec, s, s.service.value, setting, lag))
  {
    OldestIsOldest(s.rows);
    if s.fired != [] { assert FiredRow(s.rows, s.fired[|s.fired| - 1], s.clock); }
  }

  lemma RecallsStep(spec: Spec, s: State, a: Action)
    requires Remembers(s) && Recalls(s) && RequestsAreManual(s)
    ensures Recalls(Step(spec, s, a))
  {
    if a.Boot? && s.service.None? {
      BootRecalls(s, a.zone);
    } else if a.Tick? && s.service.Some? && s.service.value.busy.None? {
      TickRecalls(spec, s, a.setting, a.lag);
    }
  }

  lemma FollowedStep(spec: Spec, s: State, a: Action)
    requires Remembers(s) && Recalls(s) && Followed(s) && RequestsAreManual(s)
    ensures Followed(Step(spec, s, a))
  {
    var t := Step(spec, s, a);
    StepContinues(spec, s, a);
    forall i, j | 0 <= i < j < |t.fired| && j == i + 1 ensures Follows(t.rows, t.fired[i], t.fired[j]) {
      assert FiredRow(s.rows, s.fired[i], s.clock);
      if j < |s.fired| { assert Follows(s.rows, s.fired[i], s.fired[j]); }
    }
  }

  lemma {:induction false} FollowedRun(spec: Spec, acts: seq<Action>)
    ensures Recalls(Exec(spec, acts)) && Followed(Exec(spec, acts))
  {
    if acts != [] {
      var front, a := acts[..|acts| - 1], acts[|acts| - 1];
      FollowedRun(spec, front);
      ScheduleInv(spec, front);
      ManualRequests(spec, front);
      RecallsStep(spec, Exec(spec, front), a);
      FollowedStep(spec, Exec(spec, front), a);
    }
  }

  /** A slot that comes while a row decided at this time is being inserted, within the search's reach. */
  ghost predicate SlotDuring(spec: Spec, at: nat, started: nat, t: nat) {
    at < t <= started && t <= at + HORIZON && Slot(spec, t)
  }

  ghost predicate QuietInsert(spec: Spec, at: nat, started: nat) { forall t: nat :: !SlotDuring(spec, at, started, t) }

  ghost predicate SlotAfter(spec: Spec, started: nat, next: nat, t: nat) { started < t <= next && Slot(spec, t) }

  /** Where no slot comes while the first row is being inserted, there is one between the rows' starts too. */
  lemma {:induction false} SlotBetweenStarts(spec: Spec, acts: seq<Action>, i: nat)
    requires i + 1 < |Exec(spec, acts).fired|
    ensures var s := Exec(spec, acts);
      var f, g := s.fired[i], s.fired[i + 1];
      && FiredRow(s.rows, f, s.clock) && FiredRow(s.rows, g, s.clock)
      && var started := s.rows[f.row].startedAt.value;
         QuietInsert(spec, f.at, started) ==>
           exists t: nat :: SlotAfter(spec, started, s.rows[g.row].startedAt.value, t)
  {
    ScheduleInv(spec, acts);
    FollowedRun(spec, acts);
    var s := Exec(spec, acts);
    var f, g := s.fired[i], s.fired[i + 1];
    assert FiredRow(s.rows, f, s.clock) && FiredRow(s.rows, g, s.clock) && Follows(s.rows, f, g);
    var started := s.rows[f.row].startedAt.value;
    if QuietInsert(spec, f.at, started) {
      assert !SlotDuring(spec, f.at, started, g.slot);
      assert SlotAfter(spec, started, s.rows[g.row].startedAt.value, g.slot);
    }
  }

  /** q is the scheduled row made next after r. */
  ghost predicate NextScheduled(rows: seq<Row>, r: nat, q: nat) {
    r < q && Scheduled(rows, r) && Scheduled(rows, q) && forall p: nat :: r < p < q ==> !Scheduled(rows, p)
  }

  /** There is a slot between the starts of r and the scheduled row after it, once there is one. */
  ghost predicate SlotBefore(spec: Spec, rows: seq<Row>, r: nat) {
    forall q: nat :: NextScheduled(rows, r, q) ==> StartsApart(spec, rows, r, q)
  }

  ghost predicate StartsApart(spec: Spec, rows: seq<Row>, r: nat, q: nat) {
    && r < |rows| && q < |rows| && rows[r].startedAt.Some? && rows[q].startedAt.Some?
    && exists t: nat :: SlotAfter(spec, rows[r].startedAt.value, rows[q].startedAt.value, t)
  }

  /** Rows made one after the other were decided one after the other. */
  lemma {:induction false} NextIsNext(spec: Spec, acts: seq<Action>, i: nat, q: nat)
    requires var s := Exec(spec, acts); i < |s.fired| && NextScheduled(s.rows, s.fired[i].row, q)
    ensures var s := Exec(spec, acts); i + 1 < |s.fired| && s.fired[i + 1].row == q
  {
    var s := Exec(spec, acts);
    ScheduleInv(spec, acts);
    EveryRowDecided(spec, acts);
    var j :| DecidedAt(s.fired, j, q);
    FiringsInOrder(spec, s, i, j);
    if i + 1 < j {
      FiringsInOrder(spec, s, i + 1, j);
      assert FiredRow(s.rows, s.fired[i + 1], s.clock);
      assert Scheduled(s.rows, s.fired[i + 1].row);
    }
  }

  /** This tick decides on a scheduled backup. */
  ghost predicate Decides(spec: Spec, s: State, setting: Setting, lag: nat) {
    && s.service.Some? && s.service.value.busy.None?
    && Ticked(spec, s, s.service.value, setting, lag).fired != s.fired
  }

  lemma DecidesLeaves(spec: Spec, s: State, setting: Setting, lag: nat)
    requires Decides(spec, s, setting, lag)
    ensures var t := Step(spec, s, Tick(setting, lag));
      && |t.fired| == |s.fired| + 1 && t.fired[|s.fired|].at == s.clock && t.fired[|s.fired|].row == |s.rows|
      && |t.rows| == |s.rows| + 1 && t.rows[|s.rows|].trigger.Schedule? && t.rows[|s.rows|].startedAt == Some(s.clock + lag)
  {
  }

  lemma {:induction false} ContinuedAt(t: State, u: State, n: nat, r: nat)
    requires Continues(t, u) && n < |t.fired| && r < |t.rows| && t.rows[r].trigger.Schedule?
    ensures n < |u.fired| && u.fired[n] == t.fired[n] && r < |u.rows| && u.rows[r].startedAt == t.rows[r].startedAt
  {
    assert SameStart(t.rows[r], u.rows[r]);
  }

  lemma {:induction false} Then(spec: Spec, acts: seq<Action>, s: State, a: Action, t: State)
    requires Exec(spec, acts) == s && Step(spec, s, a) == t
    ensures Exec(spec, acts + [a]) == t
  {
    ExecSnoc(spec, acts, a);
  }

  /** However the run goes on, this decision and its row's start stay what they are. */
  lemma {:induction false} DecisionStays(spec: Spec, s: State, setting: Setting, lag: nat, first: seq<Action>, more: seq<Action>)
    requires Decides(spec, s, setting, lag) && Exec(spec, first) == Step(spec, s, Tick(setting, lag))
    ensures var u := Exec(spec, first + more);
      && |s.fired| < |u.fired| && u.fired[|s.fired|].at == s.clock && u.fired[|s.fired|].row == |s.rows|
      && |s.rows| < |u.rows| && u.rows[|s.rows|].startedAt == Some(s.clock + lag)
  {
    DecidesLeaves(spec, s, setting, lag);
    RunContinues(spec, first, more);
    ContinuedAt(Exec(spec, first), Exec(spec, first + more), |s.fired|, |s.rows|);
  }

  lemma {:induction false} ApartAt(spec: Spec, all: seq<Action>, n: nat, r: nat, at: nat, started: nat)
    requires var u := Exec(spec, all);
      && n < |u.fired| && u.fired[n].at == at && u.fired[n].row == r
      && r < |u.rows| && u.rows[r].startedAt == Some(started)
    requires QuietInsert(spec, at, started)
    ensures SlotBefore(spec, Exec(spec, all).rows, r)
  {
    forall q: nat | NextScheduled(Exec(spec, all).rows, r, q) ensures StartsApart(spec, Exec(spec, all).rows, r, q) {
      NextIsNext(spec, all, n, q);
      SlotBetweenStarts(spec, all, n);
    }
  }

  lemma {:induction false} StaysApart(spec: Spec, s: State, setting: Setting, lag: nat, first: seq<Action>, more: seq<Action>)
    requires Decides(spec, s, setting, lag) && Exec(spec, first) == Step(spec, s, Tick(setting, lag))
    requires QuietInsert(spec, s.clock, s.clock + lag)
    ensures SlotBefore(spec, Exec(spec, first + more).rows, |s.rows|)
  {
    DecisionStays(spec, s, setting, lag, first, more);
    ApartAt(spec, first + more, |s.fired|, |s.rows|, s.clock, s.clock + lag);
  }

  /** An idle service with a slot behind it makes a scheduled row at once. */
  lemma TicksAgain(spec: Spec, v: State, w: Service, t: nat)
    requires v.service == Some(w) && w.busy.None? && OldestRequest(v.rows).None?
    requires Since(w) < t <= v.clock && t <= Since(w) + HORIZON && Slot(spec, t)
    ensures Step(spec, v, Tick(On, 0)).rows == v.rows + [Row(Dump, Schedule, Running, v.clock, Some(v.clock))]
  {
    DueMeansSlot(spec, Since(w), Due(spec, w), v.clock);
  }

  /** What a decision and its end leave: no request waiting, and the service counting from the decision. */
  lemma DecidedAndDone(spec: Spec, s: State, setting: Setting, lag: nat)
    requires Decides(spec, s, setting, lag)
    ensures var v := Step(spec, Step(spec, s, Tick(setting, lag)), Finish(true));
      && v.rows == s.rows + [Row(Dump, Schedule, Succeeded, s.clock, Some(s.clock + lag))]
      && OldestRequest(v.rows).None? && v.clock == s.clock + lag
      && v.service == Some(s.service.value.(lastScheduled := Some(s.clock)))
  {
    var v := Step(spec, Step(spec, s, Tick(setting, lag)), Finish(true));
    assert v.rows == s.rows + [Row(Dump, Schedule, Succeeded, s.clock, Some(s.clock + lag))];
    assert v.rows[..|v.rows| - 1] == s.rows;
  }

  /** If a slot comes during the insert, the next tick makes another row that starts at the same moment. */
  lemma StartsTogether(spec: Spec, s: State, setting: Setting, lag: nat, t: nat)
    requires Decides(spec, s, setting, lag) && SlotDuring(spec, s.clock, s.clock + lag, t)
    ensures var u := Step(spec, Step(spec, Step(spec, s, Tick(setting, lag)), Finish(true)), Tick(On, 0));
      SameMoment(u.rows, |s.rows|)
  {
    var v := Step(spec, Step(spec, s, Tick(setting, lag)), Finish(true));
    DecidedAndDone(spec, s, setting, lag);
    TicksAgain(spec, v, v.service.value, t);
  }

  predicate SameMoment(rows: seq<Row>, r: nat) {
    Scheduled(rows, r) && Scheduled(rows, r + 1) && rows[r].startedAt.Some? && rows[r].startedAt == rows[r + 1].startedAt
  }

  lemma NoneBetween(spec: Spec, rows: seq<Row>, r: nat)
    requires SameMoment(rows, r)
    ensures !SlotBefore(spec, rows, r)
  {
    assert NextScheduled(rows, r, r + 1) && !StartsApart(spec, rows, r, r + 1);
  }

  const AtOnce := [Finish(true), Tick(On, 0)]

  lemma {:induction false} TogetherRuns(spec: Spec, s: State, setting: Setting, lag: nat, first: seq<Action>)
    requires Decides(spec, s, setting, lag) && Exec(spec, first) == Step(spec, s, Tick(setting, lag))
    requires !QuietInsert(spec, s.clock, s.clock + lag)
    ensures !SlotBefore(spec, Exec(spec, first + AtOnce).rows, |s.rows|)
  {
    var done := Step(spec, Exec(spec, first), Finish(true));
    Then(spec, first, Exec(spec, first), Finish(true), done);
    Then(spec, first + [Finish(true)], done, Tick(On, 0), Step(spec, done, Tick(On, 0)));
    assert first + AtOnce == first + [Finish(true)] + [Tick(On, 0)];
    var t: nat :| SlotDuring(spec, s.clock, s.clock + lag, t);
    StartsTogether(spec, s, setting, lag, t);
    NoneBetween(spec, Step(spec, done, Tick(On, 0)).rows, |s.rows|);
  }

  ghost predicate AlwaysApart(spec: Spec, acts: seq<Action>, r: nat) {
    forall more: seq<Action> :: SlotBefore(spec, Exec(spec, acts + more).rows, r)
  }

  lemma {:induction false} AlwaysApartExactly(spec: Spec, s: State, setting: Setting, lag: nat, first: seq<Action>)
    requires Decides(spec, s, setting, lag) && Exec(spec, first) == Step(spec, s, Tick(setting, lag))
    ensures AlwaysApart(spec, first, |s.rows|) <==> QuietInsert(spec, s.clock, s.clock + lag)
  {
    if QuietInsert(spec, s.clock, s.clock + lag) {
      forall more: seq<Action> ensures SlotBefore(spec, Exec(spec, first + more).rows, |s.rows|) {
        StaysApart(spec, s, setting, lag, first, more);
      }
    } else {
      TogetherRuns(spec, s, setting, lag, first);
    }
  }

  /**
   * A slot separates this row's start from the next scheduled row's, however
   * the run goes on, exactly when no slot within the search's reach comes
   * between the decision and the start.
   */
  lemma {:induction false} StartsApartExactly(spec: Spec, acts: seq<Action>, s: State, setting: Setting, lag: nat)
    requires s == Exec(spec, acts) && Decides(spec, s, setting, lag)
    ensures AlwaysApart(spec, acts + [Tick(setting, lag)], |s.rows|) <==> QuietInsert(spec, s.clock, s.clock + lag)
  {
    var first := acts + [Tick(setting, lag)];
    Then(spec, acts, s, Tick(setting, lag), Step(spec, s, Tick(setting, lag)));
    AlwaysApartExactly(spec, s, setting, lag, first);
  }

  /* ---- The weekly rehearsal: at most once a day ---- */

  predicate RehearsedToday(s: State) { s.rehearsed != [] && s.rehearsed[|s.rehearsed| - 1] == Day(s.clock) }

  ghost predicate RehearsedInv(s: State) {
    && (forall i, j :: 0 <= i < j < |s.rehearsed| ==> s.rehearsed[i] < s.rehearsed[j])
    && (s.rehearsed != [] ==> s.rehearsed[|s.rehearsed| - 1] <= Day(s.clock) && HasRehearsal(s.rows, s.rehearsed[|s.rehearsed| - 1]))
    && (forall i :: 0 <= i < |s.rows| && s.rows[i].startedAt.Some? ==> s.rows[i].startedAt.value <= s.clock)
  }

  /** A service that rehearsed today knows it did. */
  predicate KnowsToday(s: State) {
    s.service.Some? && RehearsedToday(s) ==> s.service.value.lastVerifyDay == Some(Day(s.clock))
  }

  ghost predicate HasRehearsal(rows: seq<Row>, day: nat) {
    exists i :: RehearsalRow(rows, i, day)
  }

  predicate RehearsalRow(rows: seq<Row>, i: int, day: nat) {
    0 <= i < |rows| && rows[i].kind.Verify? && rows[i].trigger.Schedule? && rows[i].startedAt.Some?
    && day <= Day(rows[i].startedAt.value)
  }

  lemma DayMonotone(a: nat, b: nat)
    requires a <= b
    ensures Day(a) <= Day(b)
  {
  }

  /** A restart finds today's rehearsal again. */
  predicate ReadsBack(s: State, zone: int) {
    var verified := LastStarted(Recovered(s.rows), Verify);
    RehearsedToday(s) && verified.Some? ==> LocalDay(verified.value, zone) == Day(s.clock)
  }

  lemma BootRehearsed(s: State, zone: int)
    requires RehearsedInv(s) && s.service.None?
    ensures RehearsedInv(Booted(s, zone))
    ensures var m := LastStarted(Recovered(s.rows), Verify);
      s.rehearsed != [] ==> m.Some? && s.rehearsed[|s.rehearsed| - 1] <= Day(m.value) <= Day(s.clock)
  {
    var t := Booted(s, zone);
    var m := LastStarted(t.rows, Verify);
    LastStartedIsOne(t.rows, Verify);
    assert forall i :: 0 <= i < |s.rows| ==> t.rows[i].(status := Failed) == s.rows[i].(status := Failed);
    if m.Some? { DayMonotone(m.value, s.clock); }
    if s.rehearsed != [] {
      var day := s.rehearsed[|s.rehearsed| - 1];
      var i :| RehearsalRow(s.rows, i, day);
      assert RehearsalRow(t.rows, i, day);
      LastStartedBounds(t.rows, Verify, i);
      DayMonotone(t.rows[i].startedAt.value, m.value);
    }
  }

  /** A restart leaves the service knowing of today's rehearsal exactly when the database session writes its start as the same day. */
  lemma RestartKnowsExactly(s: State, zone: int)
    requires RehearsedInv(s) && s.service.None?
    ensures KnowsToday(Booted(s, zone)) <==> ReadsBack(s, zone)
    ensures zone == 0 ==> ReadsBack(s, zone)
  {
    BootRehearsed(s, zone);
  }

  lemma KeepsRehearsal(s: State, t: State)
    requires RehearsedInv(s) && KnowsToday(s) && t.rehearsed == s.rehearsed && s.clock <= t.clock
    requires |s.rows| <= |t.rows|
    requires forall i :: 0 <= i < |s.rows| && s.rows[i].trigger.Schedule? ==>
      t.rows[i].kind == s.rows[i].kind && t.rows[i].trigger == s.rows[i].trigger && t.rows[i].startedAt == s.rows[i].startedAt
    requires forall i :: 0 <= i < |t.rows| && t.rows[i].startedAt.Some? ==> t.rows[i].startedAt.value <= t.clock
    requires t.service.Some? ==> s.service.Some? && t.service.value.lastVerifyDay == s.service.value.lastVerifyDay
    ensures RehearsedInv(t) && KnowsToday(t)
  {
    DayMonotone(s.clock, t.clock);
    if s.rehearsed != [] {
      var day := s.rehearsed[|s.rehearsed| - 1];
      var i :| RehearsalRow(s.rows, i, day);
      assert RehearsalRow(t.rows, i, day);
    }
  }

  lemma RehearsalNow(s: State, v: Service, lag: nat)
    requires RehearsedInv(s) && KnowsToday(s) && s.service == Some(v) && v.lastVerifyDay != Some(Day(s.clock))
    ensures var t := Started(s, Verify, lag).(
        service := Some(v.(lastVerifyDay := Some(Day(s.clock)), busy := Some(|s.rows|))), rehearsed := s.rehearsed + [Day(s.clock)]);
      RehearsedInv(t) && KnowsToday(t)
  {
    var t := Started(s, Verify, lag);
    DayMonotone(s.clock, s.clock + lag);
    assert RehearsalRow(t.rows, |s.rows|, Day(s.clock));
    assert s.rehearsed != [] ==> s.rehearsed[|s.rehearsed| - 1] < Day(s.clock);
  }

  lemma TickKeepsRows(spec: Spec, s: State, setting: Setting, lag: nat)
    requires s.service.Some? && RequestsAreManual(s)
    requires forall i :: 0 <= i < |s.rows| && s.rows[i].startedAt.Some? ==> s.rows[i].startedAt.value <= s.clock
    ensures var t := Ticked(spec, s, s.service.value, setting, lag);
      && s.clock <= t.clock && |s.rows| <= |t.rows|
      && (forall i :: 0 <= i < |s.rows| && s.rows[i].trigger.Schedule? ==> t.rows[i] == s.rows[i])
      && (forall i :: 0 <= i < |t.rows| && t.rows[i].startedAt.Some? ==> t.rows[i].startedAt.value <= t.clock)
      && (t.rehearsed == s.rehearsed ==> t.service.Some? && t.service.value.lastVerifyDay == s.service.value.lastVerifyDay)
      && (t.rehearsed != s.rehearsed ==>
            s.service.value.lastVerifyDay != Some(Day(s.clock))
            && t == Started(s, Verify, lag).(
                 service := Some(s.service.value.(lastVerifyDay := Some(Day(s.clock)), busy := Some(|s.rows|))),
                 rehearsed := s.rehearsed + [Day(s.clock)]))
  {
    OldestIsOldest(s.rows);
  }

  lemma TickRehearses(spec: Spec, s: State, setting: Setting, lag: nat)
    requires RehearsedInv(s) && KnowsToday(s) && s.service.Some? && RequestsAreManual(s)
    ensures var t := Ticked(spec, s, s.service.value, setting, lag); RehearsedInv(t) && KnowsToday(t)
  {
    TickKeepsRows(spec, s, setting, lag);
    var t := Ticked(spec, s, s.service.value, setting, lag);
    if t.rehearsed != s.rehearsed {
      RehearsalNow(s, s.service.value, lag);
    } else {
      KeepsRehearsal(s, t);
    }
  }

  /** Every restart of the run reads back the day of a rehearsal as it was. */
  ghost predicate AllReadBack(spec: Spec, acts: seq<Action>) {
    forall i :: 0 <= i < |acts| ==> RestartReadsBack(Exec(spec, acts[..i]), acts[i])
  }

  predicate RestartReadsBack(s: State, a: Action) { a.Boot? && s.service.None? ==> ReadsBack(s, a.zone) }

  lemma RehearsedStep(spec: Spec, s: State, a: Action)
    requires RehearsedInv(s) && KnowsToday(s) && RequestsAreManual(s) && RestartReadsBack(s, a)
    ensures RehearsedInv(Step(spec, s, a)) && KnowsToday(Step(spec, s, a))
  {
    if a.Boot? && s.service.None? {
      BootRehearsed(s, a.zone);
      RestartKnowsExactly(s, a.zone);
    } else if a.Tick? && s.service.Some? && s.service.value.busy.None? {
      TickRehearses(spec, s, a.setting, a.lag);
    } else {
      KeepsRehearsal(s, Step(spec, s, a));
    }
  }

  lemma {:induction false} RehearsedRun(spec: Spec, acts: seq<Action>)
    requires AllReadBack(spec, acts)
    ensures RehearsedInv(Exec(spec, acts)) && KnowsToday(Exec(spec, acts))
  {
    if acts != [] {
      var k := |acts| - 1;
      forall i | 0 <= i < k ensures RestartReadsBack(Exec(spec, acts[..k][..i]), acts[..k][i]) { assert acts[..k][..i] == acts[..i]; }
      RehearsedRun(spec, acts[..k]);
      ManualRequests(spec, acts[..k]);
      RehearsedStep(spec, Exec(spec, acts[..k]), acts[k]);
    }
  }

  /** Across any run whose restarts read it back, the scheduled rehearsals fall on different days, in order. */
  lemma {:induction false} RehearsedOncePerDay(spec: Spec, acts: seq<Action>)
    requires AllReadBack(spec, acts)
    ensures var days := Exec(spec, acts).rehearsed;
      forall i, j :: 0 <= i < j < |days| ==> days[i] < days[j]
  {
    RehearsedRun(spec, acts);
  }

  /** A database session in UTC always reads it back. */
  lemma {:induction false} UtcReadsBack(spec: Spec, acts: seq<Action>)
    requires forall a <- acts :: a.Boot? ==> a.zone == 0
    ensures AllReadBack(spec, acts)
  {
    forall i | 0 <= i < |acts| ensures RestartReadsBack(Exec(spec, acts[..i]), acts[i]) {
      UtcReadsBack(spec, acts[..i]);
      assert acts[i] in acts;
      RehearsedRun(spec, acts[..i]);
      if Exec(spec, acts[..i]).service.None? { RestartKnowsExactly(Exec(spec, acts[..i]), 0); }
    }
  }

  /* A rehearsal at four on a Thursday, and a restart whose database session is five hours behind UTC. */

  const FourOClock: nat := 14_400_000
  const Behind := -18_000_000
  const Thursdays := Setting(true, Some(4), true)
  const Dumped := Row(Dump, Schedule, Succeeded, FourOClock, Some(FourOClock))
  const Rehearsal := Row(Verify, Schedule, Running, FourOClock, Some(FourOClock))
  const Fired := [Firing(60_000, FourOClock, 0)]

  lemma TickBacksUp()
    ensures var s := State([], Some(Service(None, None, 0, None)), FourOClock, [], []);
      Step(EveryMinute, s, Tick(Thursdays, 0))
      == State([Dumped.(status := Running)], Some(Service(Some(FourOClock), None, 0, Some(0))), FourOClock, Fired, [])
  {
    NextMinute(0, Service(None, None, 0, None));
  }

  lemma {:induction false} TickRehearsesNow(rows: seq<Row>, v: Service, rehearsed: seq<nat>)
    requires v.lastScheduled == Some(FourOClock) && v.busy.None? && v.lastVerifyDay != Some(0) && OldestRequest(rows) == None
    ensures Step(EveryMinute, State(rows, Some(v), FourOClock, Fired, rehearsed), Tick(Thursdays, 0))
      == State(rows + [Rehearsal], Some(v.(lastVerifyDay := Some(0), busy := Some(|rows|))), FourOClock, Fired, rehearsed + [0])
  {
    var s := State(rows, Some(v), FourOClock, Fired, rehearsed);
    NextMinute(FourOClock, v);
    assert Due(EveryMinute, v).value > FourOClock;
    assert RehearsalDue(Thursdays, v, FourOClock) && Day(FourOClock) == 0;
    assert Started(s, Verify, 0) == s.(rows := rows + [Rehearsal]);
  }

  lemma BootsTheDayBefore()
    ensures Booted(State([Dumped, Rehearsal], None, FourOClock, Fired, [0]), Behind)
      == State([Dumped, Rehearsal.(status := Failed)], Some(Service(Some(FourOClock), Some(-1), FourOClock, None)), FourOClock, Fired, [0])
  {
    var failed := Rehearsal.(status := Failed);
    assert Recovered([Dumped, Rehearsal]) == [Dumped, failed];
    assert [Dumped, failed][..1] == [Dumped] && [Dumped][..0] == [];
    assert LastStarted([], Dump) == None && LastStarted([], Verify) == None;
    assert LastStarted([Dumped], Dump) == Some(FourOClock) && LastStarted([Dumped], Verify) == None;
  }

  const ThatDay := [] + [Boot(0)] + [Wait(FourOClock)] + [Tick(Thursdays, 0)] + [Finish(true)] + [Tick(Thursdays, 0)]

  lemma RehearsedThatDay()
    ensures Exec(EveryMinute, ThatDay)
         == State([Dumped, Rehearsal], Some(Service(Some(FourOClock), Some(0), 0, Some(1))), FourOClock, Fired, [0])
  {
    var idle := Service(None, None, 0, None);
    var s1 := State([], Some(idle), 0, [], []);
    var s2 := State([], Some(idle), FourOClock, [], []);
    var s3 := State([Dumped.(status := Running)], Some(Service(Some(FourOClock), None, 0, Some(0))), FourOClock, Fired, []);
    var v := Service(Some(FourOClock), None, 0, None);
    var s4 := State([Dumped], Some(v), FourOClock, Fired, []);
    Then(EveryMinute, [], Fresh, Boot(0), s1);
    Then(EveryMinute, [] + [Boot(0)], s1, Wait(FourOClock), s2);
    TickBacksUp();
    Then(EveryMinute, [] + [Boot(0)] + [Wait(FourOClock)], s2, Tick(Thursdays, 0), s3);
    Then(EveryMinute, [] + [Boot(0)] + [Wait(FourOClock)] + [Tick(Thursdays, 0)], s3, Finish(true), s4);
    TickRehearsesNow([Dumped], v, []);
    assert [Dumped] + [Rehearsal] == [Dumped, Rehearsal] && [] + [0] == [0];
    ExecSnoc(EveryMinute, [] + [Boot(0)] + [Wait(FourOClock)] + [Tick(Thursdays, 0)] + [Finish(true)], Tick(Thursdays, 0));
  }

  /** The restart reads the rehearsal back as the day before, and the same Thursday is rehearsed twice. */
  lemma RehearsedTwice()
    ensures Exec(EveryMinute, ThatDay + [Stop] + [Boot(Behind)] + [Tick(Thursdays, 0)]).rehearsed == [0, 0]
  {
    RehearsedThatDay();
    var s := State([Dumped, Rehearsal], None, FourOClock, Fired, [0]);
    Then(EveryMinute, ThatDay, Exec(EveryMinute, ThatDay), Stop, s);
    BootsTheDayBefore();
    Then(EveryMinute, ThatDay + [Stop], s, Boot(Behind), Booted(s, Behind));
    assert OldestRequest([Dumped, Rehearsal.(status := Failed)]) == None;
    TickRehearsesNow([Dumped, Rehearsal.(status := Failed)], Service(Some(FourOClock), Some(-1), FourOClock, None), [0]);
    ExecSnoc(EveryMinute, ThatDay + [Stop] + [Boot(Behind)], Tick(Thursdays, 0));
  }

  /* ---- The service as it runs ---- */

  class BackupService {
    const spec: Spec
    var rows: seq<Row>
    var lastScheduled: Option<nat>
    var lastVerifyDay: Option<int>
    var bootedAt: nat
    var busy: Option<nat>
    ghost var fired: seq<Firing>
    ghost var rehearsed: seq<nat>

    function Memory(): Service
      reads this
    {
      Service(lastScheduled, lastVerifyDay, bootedAt, busy)
    }

    ghost function At(clock: nat): State
      reads this
    {
      State(rows, Some(Memory()), clock, fired, rehearsed)
    }

    /** Start-up on a table left by whatever ran before. */
    constructor (spec: Spec, table: seq<Row>, now: nat, zone: int, ghost before: State)
      requires before.rows == table && before.clock == now && before.service.None?
      ensures this.spec == spec && At(now) == Booted(before, zone)
    {
      this.spec := spec;
      var rows' := Recovered(table);
      rows := rows';
      lastScheduled := LastStarted(rows', Dump);
      var verified := LastStarted(rows', Verify);
      lastVerifyDay := if verified.Some? then Some(LocalDay(verified.value, zone)) else None;
      bootedAt, busy := now, None;
      fired, rehearsed := before.fired, before.rehearsed;
    }

    method Begin(kind: Kind, started: nat, asked: nat) returns (id: nat)
      modifies this`rows, this`busy
      ensures id == |old(rows)| && rows == old(rows) + [Row(kind, Schedule, Running, asked, Some(started))] && busy == Some(id)
    {
      id := |rows|;
      rows := rows + [Row(kind, Schedule, Running, asked, Some(started))];
      busy := Some(id);
    }

    /** One pass of the loop, up to the point where the work itself starts. */
    method Tick(now: nat, setting: Setting, lag: nat)
      requires busy.None?
      modifies this
      ensures At(now + lag).(clock := 0) == Ticked(spec, old(At(now)), old(Memory()), setting, lag).(clock := 0)
    {
      var requested := OldestRequest(rows);
      OldestIsOldest(rows);
      if requested.Some? {
        var id := requested.value;
        rows := rows[id := rows[id].(status := Running, startedAt := Some(now + lag))];
        busy := Some(id);
        return;
      }
      if !setting.enabled { return; }
      var due := NextRun(spec, if lastScheduled.Some? then lastScheduled.value else bootedAt);
      NextUnique(spec, Since(Memory()), due, Due(spec, Memory()));
      if due.None? { return; }
      if due.value <= now {
        lastScheduled := Some(now);
        var id := Begin(Dump, now + lag, now);
        fired := fired + [Firing(due.value, now, id)];
        return;
      }
      var today := Day(now);
      if setting.verifyWeekday == Some(Weekday(now)) && lastVerifyDay != Some(today) && setting.local && UtcHour(now) >= 4 {
        lastVerifyDay := Some(today);
        var _ := Begin(Verify, now + lag, now);
        rehearsed := rehearsed + [today];
      }
    }

    /** The end of a run, however the work itself went. */
    method Finish(ok: bool)
      requires busy.Some? && busy.value < |rows|
      modifies this
      ensures At(0) == Finished(old(At(0)), old(Memory()), ok)
    {
      rows := rows[busy.value := rows[busy.value].(status := if ok then Succeeded else Failed)];
      busy := None;
    }
  }
}
