/**
 The backup schedule worker: one worker taking the schedules whose time has come, while operators
 create, edit and delete schedules, statements fail and the process may die between any two of them.

 A schedule is stored by two statements: its fields first, its next run behind them. Every write of a
 next run makes a new slot, so that the same slot can be recognised when it is taken again.
 */
module BackupSchedules {
  import opened Options

  type ScheduleId = nat
  type BackupId = nat

  const DUE_LIMIT: nat := 20
  const REARM_HORIZON: int := 32 * 86_400

  /** A next run as it was written: when it is for, and which write it was. */
  datatype Slot = Slot(at: int, written: nat)

  /** `timeReadable`: the time of day can be read, or is not needed; `zoneKnown`: the zone is one. */
  datatype Fields = Fields(enabled: bool, scopes: seq<string>, timeReadable: bool, zoneKnown: bool)

  datatype Schedule = Schedule(fields: Fields, next: Option<Slot>)

  datatype Due = Due(id: ScheduleId, slot: Slot, scopes: seq<string>)

  /** What the worker did and what befell it; and an edit that enables a schedule with a slot standing. */
  datatype Entry =
    | Inserted(id: ScheduleId, slot: Slot)
    | Rearmed(id: ScheduleId, clock: int, at: int)
    | Disabled(id: ScheduleId)
    | Interrupted(id: ScheduleId)
    | Reopened(id: ScheduleId, slot: Slot)

  /** What the worker waits on: the schedule it takes, as it was read again, and the rest of the list. */
  datatype Stage =
    | Idle
    | Reading(due: Due, queue: seq<Due>)
    | Inserting(due: Due, fields: Fields, queue: seq<Due>)
    | Producing(due: Due, fields: Fields, queue: seq<Due>)
    | Rearming(due: Due, clock: int, at: int, queue: seq<Due>)
    | Disabling(due: Due, queue: seq<Due>)

  /** A backup row of the worker, with the parts it asks for. */
  datatype Row = Row(id: ScheduleId, scopes: seq<string>)

  datatype State = State(
    schedules: map<ScheduleId, Schedule>,
    clock: int,
    slots: nat,
    stage: Stage,
    rows: seq<Row>,
    log: seq<Entry>)

  /** What a schedule without scopes of its own backs up. */
  const PARTS: seq<string> := ["database", "media", "configuration", "themes", "plugins"]

  /**
   The answer to what the worker waits on. `Fault` is an error: the statement may have taken effect
   all the same. `NoNext` is a cadence that finds no next run.
   */
  datatype Move =
    | List(now: int, due: seq<Due>)
    | Proceed
    | NextRun(at: int)
    | NoNext
    | Fault(committed: bool)
    | Crash

  /** `Save` is the two write routes; `HandWrite` is a row written past them, or changed by a migration. */
  datatype Action =
    | Advance(seconds: nat)
    | Save(id: ScheduleId, fields: Fields)
    | HandWrite(id: ScheduleId, fields: Fields)
    | SaveSlot(id: ScheduleId, at: Option<int>)
    | Delete(id: ScheduleId)
    | ByWorker(move: Move)

  function Start(): State {
    State(map[], 0, 0, Idle, [], [])
  }

  predicate IsDue(s: State, id: ScheduleId, now: int) {
    id in s.schedules && s.schedules[id].fields.enabled
    && s.schedules[id].next.Some? && s.schedules[id].next.value.at <= now
  }

  predicate Names(due: seq<Due>, id: ScheduleId) {
    exists k :: 0 <= k < |due| && due[k].id == id
  }

  /** What the query for the schedules due by `now` returns: the earliest, up to the limit, as they stand. */
  predicate IsDueRead(s: State, now: int, due: seq<Due>) {
    && now <= s.clock && |due| <= DUE_LIMIT
    && (forall k :: 0 <= k < |due| ==>
          && IsDue(s, due[k].id, now)
          && due[k].slot == s.schedules[due[k].id].next.value
          && due[k].scopes == s.schedules[due[k].id].fields.scopes)
    && (forall i, k :: 0 <= i < k < |due| ==> due[i].id != due[k].id && due[i].slot.at <= due[k].slot.at)
    && (forall id | id in s.schedules && IsDue(s, id, now) && !Names(due, id) ::
          && |due| == DUE_LIMIT
          && (forall k :: 0 <= k < |due| ==> due[k].slot.at <= s.schedules[id].next.value.at))
  }

  /** On to the next schedule of the list. */
  function Next(queue: seq<Due>): Stage {
    if queue == [] then Idle else Reading(queue[0], queue[1..])
  }

  function Write(s: State, id: ScheduleId, at: Option<int>): State {
    if id !in s.schedules then s
    else
      var next := if at.Some? then Some(Slot(at.value, s.slots)) else None;
      s.(schedules := s.schedules[id := s.schedules[id].(next := next)], slots := s.slots + 1)
  }

  function Disable(s: State, id: ScheduleId): State {
    if id !in s.schedules then s
    else s.(schedules := s.schedules[id := s.schedules[id].(fields := s.schedules[id].fields.(enabled := false))])
  }

  function Log(s: State, entry: Entry): State {
    s.(log := s.log + [entry])
  }

  /** The attempt is given up after the insert; the tick goes on. */
  function GiveUp(s: State, id: ScheduleId, queue: seq<Due>): State {
    Log(s, Interrupted(id)).(stage := Next(queue))
  }

  /** The row is written with the scopes of the list, or all parts when the schedule read again has none. */
  function Insert(s: State, due: Due, fields: Fields): State {
    Log(s.(rows := s.rows + [Row(due.id, if fields.scopes == [] then PARTS else due.scopes)]), Inserted(due.id, due.slot))
  }

  /** The table's own constraint on the parts: a schedule names one at least. */
  predicate TableAllows(fields: Fields) {
    fields.scopes != []
  }

  /**
   What the routes store: they read the time of day before they write anything, and for an enabled
   schedule they compute the next run, which takes a zone that is one.
   */
  predicate RouteAccepts(fields: Fields) {
    TableAllows(fields) && fields.timeReadable && (fields.enabled ==> fields.zoneKnown)
  }

  /** The fields this action stores for a schedule, if it does. */
  function Stores(a: Action, id: ScheduleId): Option<Fields> {
    if a.Save? && a.id == id && RouteAccepts(a.fields) then Some(a.fields)
    else if a.HandWrite? && a.id == id && TableAllows(a.fields) then Some(a.fields)
    else None
  }

  function SaveStep(s: State, id: ScheduleId, fields: Fields): State {
    if id !in s.schedules then s.(schedules := s.schedules[id := Schedule(fields, None)])
    else
      var stood := s.schedules[id];
      var saved := s.(schedules := s.schedules[id := stood.(fields := fields)]);
      if fields.enabled && !stood.fields.enabled && stood.next.Some? then Log(saved, Reopened(id, stood.next.value)) else saved
  }

  function ReadStep(s: State, due: Due, queue: seq<Due>, move: Move): State {
    match move
    case Proceed =>
      if due.id in s.schedules && s.schedules[due.id].fields.enabled
      then s.(stage := Inserting(due, s.schedules[due.id].fields, queue))
      else s.(stage := Next(queue))
    case Fault(_) => s.(stage := Next(queue))
    case Crash => s.(stage := Idle)
    case _ => s
  }

  /**
   A run without scopes is refused before its row is written. The table lets no schedule name none, so
   this and the fallback to all parts are never taken; the code has both.
   */
  predicate Refused(due: Due, fields: Fields) {
    fields.scopes != [] && due.scopes == []
  }

  function InsertStep(s: State, due: Due, fields: Fields, queue: seq<Due>, move: Move): State {
    match move
    case Proceed =>
      if Refused(due, fields) then s.(stage := Next(queue))
      else Insert(s, due, fields).(stage := Producing(due, fields, queue))
    case Fault(committed) =>
      if committed && !Refused(due, fields) then GiveUp(Insert(s, due, fields), due.id, queue)
      else s.(stage := Next(queue))
    case Crash => s.(stage := Idle)
    case _ => s
  }

  /** The statements of the run, and then the next run: from a cadence that can be read, or none. */
  function ProduceStep(s: State, due: Due, fields: Fields, queue: seq<Due>, move: Move): State {
    match move
    case NextRun(at) =>
      if fields.timeReadable && fields.zoneKnown && at > s.clock then s.(stage := Rearming(due, s.clock, at, queue)) else s
    case NoNext =>
      if fields.timeReadable then s.(stage := Rearming(due, s.clock, s.clock + REARM_HORIZON, queue)) else s
    case Proceed => if fields.timeReadable then s else s.(stage := Disabling(due, queue))
    case Fault(_) => GiveUp(s, due.id, queue)
    case Crash => GiveUp(s, due.id, [])
    case List(_, _) => s
  }

  function Rearm(s: State, due: Due, clock: int, at: int, queue: seq<Due>): State {
    Log(Write(s, due.id, Some(at)), Rearmed(due.id, clock, at)).(stage := Next(queue))
  }

  function RearmStep(s: State, due: Due, clock: int, at: int, queue: seq<Due>, move: Move): State {
    match move
    case Proceed => Rearm(s, due, clock, at, queue)
    case Fault(committed) => if committed then Rearm(s, due, clock, at, queue) else GiveUp(s, due.id, queue)
    case Crash => GiveUp(s, due.id, [])
    case _ => s
  }

  function Close(s: State, due: Due, queue: seq<Due>): State {
    Log(Disable(s, due.id), Disabled(due.id)).(stage := Next(queue))
  }

  function DisableStep(s: State, due: Due, queue: seq<Due>, move: Move): State {
    match move
    case Proceed => Close(s, due, queue)
    case Fault(committed) => if committed then Close(s, due, queue) else GiveUp(s, due.id, queue)
    case Crash => GiveUp(s, due.id, [])
    case _ => s
  }

  function WorkerStep(s: State, move: Move): State {
    match s.stage
    case Idle => if move.List? && IsDueRead(s, move.now, move.due) then s.(stage := Next(move.due)) else s
    case Reading(due, queue) => ReadStep(s, due, queue, move)
    case Inserting(due, fields, queue) => InsertStep(s, due, fields, queue, move)
    case Producing(due, fields, queue) => ProduceStep(s, due, fields, queue, move)
    case Rearming(due, clock, at, queue) => RearmStep(s, due, clock, at, queue, move)
    case Disabling(due, queue) => DisableStep(s, due, queue, move)
  }

  function Apply(s: State, a: Action): State {
    match a
    case Advance(seconds) => s.(clock := s.clock + seconds)
    case Save(id, fields) => if RouteAccepts(fields) then SaveStep(s, id, fields) else s
    case HandWrite(id, fields) => if TableAllows(fields) then SaveStep(s, id, fields) else s
    case SaveSlot(id, at) => Write(s, id, at)
    case Delete(id) => s.(schedules := s.schedules - {id})
    case ByWorker(move) => WorkerStep(s, move)
  }

  function Exec(run: seq<Action>): State {
    if run == [] then Start() else Apply(Exec(run[..|run| - 1]), run[|run| - 1])
  }
}
