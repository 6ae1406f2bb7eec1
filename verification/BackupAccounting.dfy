/** What holds of the backup schedule worker in every run, whatever fails and whatever operators do. */
module BackupAccounting {
  import opened Options
  import opened BackupSchedules

  // ---- every backup row is accounted for

  function Inserts(log: seq<Entry>, id: ScheduleId): nat {
    if log == [] then 0
    else
      var last := log[|log| - 1];
      Inserts(log[..|log| - 1], id) + if last.Inserted? && last.id == id then 1 else 0
  }

  predicate Ends(e: Entry, id: ScheduleId) {
    (e.Rearmed? || e.Disabled? || e.Interrupted?) && e.id == id
  }

  /** Attempts that ended: the schedule was armed again, or disabled, or the attempt was given up. */
  function Endings(log: seq<Entry>, id: ScheduleId): nat {
    if log == [] then 0
    else
      var last := log[|log| - 1];
      Endings(log[..|log| - 1], id)
      + if Ends(last, id) then 1 else 0
  }

  predicate IsOpen(stage: Stage, id: ScheduleId) {
    (stage.Producing? || stage.Rearming? || stage.Disabling?) && stage.due.id == id
  }

  function RowsOf(rows: seq<Row>, id: ScheduleId): nat {
    if rows == [] then 0 else RowsOf(rows[..|rows| - 1], id) + if rows[|rows| - 1].id == id then 1 else 0
  }

  /** The backup rows of a schedule are its rearms, disablements, interruptions and the one under way. */
  ghost predicate Accounted(s: State) {
    forall id ::
      && Inserts(s.log, id) == Endings(s.log, id) + (if IsOpen(s.stage, id) then 1 else 0)
      && Inserts(s.log, id) == RowsOf(s.rows, id)
  }

  lemma RowsOfAppend(rows: seq<Row>, row: Row)
    ensures forall id :: RowsOf(rows + [row], id) == RowsOf(rows, id) + if row.id == id then 1 else 0
  {
    assert (rows + [row])[..|rows|] == rows;
  }

  lemma CountsOfAppend(log: seq<Entry>, e: Entry)
    ensures forall id :: Inserts(log + [e], id) == Inserts(log, id) + if e.Inserted? && e.id == id then 1 else 0
    ensures forall id :: Endings(log + [e], id) == Endings(log, id) + if Ends(e, id) then 1 else 0
  {
    assert (log + [e])[..|log|] == log;
  }

  lemma SaveKeepsAccounts(s: State, id: ScheduleId, fields: Fields)
    requires Accounted(s)
    ensures Accounted(SaveStep(s, id, fields))
  {
    if id in s.schedules && s.schedules[id].next.Some? {
      CountsOfAppend(s.log, Reopened(id, s.schedules[id].next.value));
    }
  }

  lemma ApplyKeepsAccounts(s: State, a: Action)
    requires Accounted(s)
    ensures Accounted(Apply(s, a))
  {
    match a
    case Save(id, fields) => SaveKeepsAccounts(s, id, fields);
    case HandWrite(id, fields) => SaveKeepsAccounts(s, id, fields);
    case ByWorker(move) => WorkerKeepsAccounts(s, move);
    case _ =>
  }

  lemma OneEntry(s: State, t: State, e: Entry)
    requires Accounted(s) && t.log == s.log + [e] && t.rows == s.rows
    requires !e.Reopened? && !e.Inserted?
    requires forall id :: id != e.id ==> IsOpen(t.stage, id) == IsOpen(s.stage, id)
    requires !IsOpen(t.stage, e.id) && IsOpen(s.stage, e.id)
    ensures Accounted(t)
  {
    CountsOfAppend(s.log, e);
  }

  lemma TakingKeepsAccounts(s: State)
    requires Accounted(s) && s.stage.Inserting?
    ensures Accounted(Insert(s, s.stage.due, s.stage.fields).(stage := Producing(s.stage.due, s.stage.fields, s.stage.queue)))
  {
    var due, fields := s.stage.due, s.stage.fields;
    RowsOfAppend(s.rows, Row(due.id, if fields.scopes == [] then PARTS else due.scopes));
    CountsOfAppend(s.log, Inserted(due.id, due.slot));
  }

  lemma GiveUpKeepsAccounts(s: State, queue: seq<Due>)
    requires Accounted(s) && (s.stage.Producing? || s.stage.Rearming? || s.stage.Disabling?)
    ensures Accounted(GiveUp(s, s.stage.due.id, queue))
  {
    OneEntry(s, GiveUp(s, s.stage.due.id, queue), Interrupted(s.stage.due.id));
  }

  lemma InsertKeepsAccounts(s: State, move: Move)
    requires Accounted(s) && s.stage.Inserting?
    ensures Accounted(InsertStep(s, s.stage.due, s.stage.fields, s.stage.queue, move))
  {
    var due, fields, queue := s.stage.due, s.stage.fields, s.stage.queue;
    var taken := Insert(s, due, fields).(stage := Producing(due, fields, queue));
    TakingKeepsAccounts(s);
    GiveUpKeepsAccounts(taken, queue);
    assert GiveUp(taken, due.id, queue) == GiveUp(Insert(s, due, fields), due.id, queue);
  }

  lemma ProduceKeepsAccounts(s: State, move: Move)
    requires Accounted(s) && s.stage.Producing?
    ensures Accounted(ProduceStep(s, s.stage.due, s.stage.fields, s.stage.queue, move))
  {
    GiveUpKeepsAccounts(s, s.stage.queue);
    GiveUpKeepsAccounts(s, []);
  }

  lemma RearmKeepsAccounts(s: State, move: Move)
    requires Accounted(s) && s.stage.Rearming?
    ensures Accounted(RearmStep(s, s.stage.due, s.stage.clock, s.stage.at, s.stage.queue, move))
  {
    GiveUpKeepsAccounts(s, s.stage.queue);
    GiveUpKeepsAccounts(s, []);
    OneEntry(s, Rearm(s, s.stage.due, s.stage.clock, s.stage.at, s.stage.queue), Rearmed(s.stage.due.id, s.stage.clock, s.stage.at));
  }

  lemma DisableKeepsAccounts(s: State, move: Move)
    requires Accounted(s) && s.stage.Disabling?
    ensures Accounted(DisableStep(s, s.stage.due, s.stage.queue, move))
  {
    GiveUpKeepsAccounts(s, s.stage.queue);
    GiveUpKeepsAccounts(s, []);
    OneEntry(s, Close(s, s.stage.due, s.stage.queue), Disabled(s.stage.due.id));
  }

  lemma WorkerKeepsAccounts(s: State, move: Move)
    requires Accounted(s)
    ensures Accounted(WorkerStep(s, move))
  {
    match s.stage
    case Inserting(due, fields, queue) => InsertKeepsAccounts(s, move);
    case Producing(due, fields, queue) => ProduceKeepsAccounts(s, move);
    case Rearming(due, clock, at, queue) => RearmKeepsAccounts(s, move);
    case Disabling(due, queue) => DisableKeepsAccounts(s, move);
    case _ =>
  }

  lemma {:induction false} EveryBackupIsAccountedFor(run: seq<Action>)
    ensures Accounted(Exec(run))
  {
    if run != [] {
      EveryBackupIsAccountedFor(run[..|run| - 1]);
      ApplyKeepsAccounts(Exec(run[..|run| - 1]), run[|run| - 1]);
    }
  }

  // ---- a completed attempt leaves its schedule disabled, or armed ahead of the clock

  /** What the entry just logged says about the schedules behind it. */
  predicate Settles(s: State, e: Entry) {
    match e
    case Rearmed(id, clock, at) =>
      clock < at && (id in s.schedules ==> s.slots > 0 && s.schedules[id].next == Some(Slot(at, s.slots - 1)))
    case Disabled(id) => id in s.schedules ==> !s.schedules[id].fields.enabled
    case _ => true
  }

  predicate ArmsAhead(stage: Stage) {
    stage.Rearming? ==> stage.clock < stage.at
  }

  lemma {:induction false} RearmsAreAhead(run: seq<Action>)
    ensures ArmsAhead(Exec(run).stage)
    ensures LogIsAhead(Exec(run).log)
  {
    if run != [] {
      RearmsAreAhead(run[..|run| - 1]);
      StepIsAhead(Exec(run[..|run| - 1]), run[|run| - 1]);
    }
  }

  ghost predicate LogIsAhead(log: seq<Entry>) {
    forall k :: 0 <= k < |log| && log[k].Rearmed? ==> log[k].clock < log[k].at
  }

  lemma StepIsAhead(s: State, a: Action)
    requires ArmsAhead(s.stage) && LogIsAhead(s.log)
    ensures ArmsAhead(Apply(s, a).stage) && LogIsAhead(Apply(s, a).log)
  {
    if a.ByWorker? {
      match s.stage
      case Inserting(due, fields, queue) => InsertIsAhead(s, due, fields, queue, a.move);
      case Producing(due, fields, queue) => ProduceIsAhead(s, due, fields, queue, a.move);
      case Rearming(due, clock, at, queue) => RearmIsAhead(s, due, clock, at, queue, a.move);
      case _ =>
    }
  }

  lemma InsertIsAhead(s: State, due: Due, fields: Fields, queue: seq<Due>, move: Move)
    requires LogIsAhead(s.log) && ArmsAhead(s.stage)
    ensures ArmsAhead(InsertStep(s, due, fields, queue, move).stage) && LogIsAhead(InsertStep(s, due, fields, queue, move).log)
  {
  }

  lemma ProduceIsAhead(s: State, due: Due, fields: Fields, queue: seq<Due>, move: Move)
    requires LogIsAhead(s.log) && ArmsAhead(s.stage)
    ensures ArmsAhead(ProduceStep(s, due, fields, queue, move).stage) && LogIsAhead(ProduceStep(s, due, fields, queue, move).log)
  {
  }

  lemma RearmIsAhead(s: State, due: Due, clock: int, at: int, queue: seq<Due>, move: Move)
    requires LogIsAhead(s.log) && clock < at && ArmsAhead(s.stage)
    ensures ArmsAhead(RearmStep(s, due, clock, at, queue, move).stage) && LogIsAhead(RearmStep(s, due, clock, at, queue, move).log)
  {
  }

  /**
   The step that completes an attempt leaves the schedule, if it still exists, armed strictly after
   the clock that the rearm read, in a slot nobody wrote before, or disabled. The clock may have
   passed the new slot by then.
   */
  lemma CompletionSettles(run: seq<Action>, move: Move)
    ensures var before, after := Exec(run), WorkerStep(Exec(run), move);
      |before.log| < |after.log| ==> Settles(after, after.log[|after.log| - 1])
  {
    RearmsAreAhead(run);
    var s := Exec(run);
    match s.stage
    case Inserting(due, fields, queue) => InsertSettlesNothing(s, due, fields, queue, move);
    case Rearming(due, clock, at, queue) => RearmSettles(s, due, clock, at, queue, move);
    case Disabling(due, queue) => DisableSettles(s, due, queue, move);
    case _ =>
  }

  lemma InsertSettlesNothing(s: State, due: Due, fields: Fields, queue: seq<Due>, move: Move)
    ensures var after := InsertStep(s, due, fields, queue, move);
      |s.log| < |after.log| ==> after.log[|after.log| - 1].Inserted? || after.log[|after.log| - 1].Interrupted?
  {
  }

  lemma RearmSettles(s: State, due: Due, clock: int, at: int, queue: seq<Due>, move: Move)
    requires clock < at
    ensures var after := RearmStep(s, due, clock, at, queue, move);
      |s.log| < |after.log| ==> Settles(after, after.log[|after.log| - 1])
  {
  }

  lemma DisableSettles(s: State, due: Due, queue: seq<Due>, move: Move)
    ensures var after := DisableStep(s, due, queue, move);
      |s.log| < |after.log| ==> Settles(after, after.log[|after.log| - 1])
  {
  }

  // ---- when a slot is taken twice

  /**
   How it stands with a slot: its attempt is under way, was completed by a rearm, was given up, ended
   with the schedule disabled, or that and the schedule was enabled again with the slot standing.
   */
  datatype Taking = Untaken | Open | Done | Cut | Shut | Freed

  function After(t: Taking, e: Entry, id: ScheduleId, slot: Slot): Taking {
    if e == Inserted(id, slot) then Open
    else if t == Open && Ends(e, id) then (if e.Rearmed? then Done else if e.Disabled? then Shut else Cut)
    else if t == Shut && e == Reopened(id, slot) then Freed
    else t
  }

  function TakingOf(log: seq<Entry>, id: ScheduleId, slot: Slot): Taking {
    if log == [] then Untaken else After(TakingOf(log[..|log| - 1], id, slot), log[|log| - 1], id, slot)
  }

  /** The slot may be taken: it never was, or what became of it explains a second time. */
  predicate Free(log: seq<Entry>, id: ScheduleId, slot: Slot) {
    TakingOf(log, id, slot) in {Untaken, Cut, Freed}
  }

  ghost predicate TakenWhenFree(log: seq<Entry>) {
    forall j :: 0 <= j < |log| && log[j].Inserted? ==> Free(log[..j], log[j].id, log[j].slot)
  }

  predicate Holds(stage: Stage, id: ScheduleId, slot: Slot) {
    IsOpen(stage, id) && stage.due.slot == slot
  }

  function Waiting(stage: Stage): seq<Due> {
    match stage
    case Idle => []
    case Reading(due, queue) => [due] + queue
    case Inserting(due, fields, queue) => [due] + queue
    case Producing(_, _, queue) => queue
    case Rearming(_, _, _, queue) => queue
    case Disabling(_, queue) => queue
  }

  ghost predicate SlotsOk(s: State) {
    && (forall k :: 0 <= k < |s.log| && s.log[k].Inserted? ==> s.log[k].slot.written < s.slots)
    && (forall id :: id in s.schedules && s.schedules[id].next.Some? ==> s.schedules[id].next.value.written < s.slots)
    && (forall d :: d in Waiting(s.stage) ==> d.slot.written < s.slots)
  }

  ghost predicate QueueOk(s: State) {
    var waiting := Waiting(s.stage);
    && (forall d :: d in waiting ==> Free(s.log, d.id, d.slot))
    && (forall i, k :: 0 <= i < k < |waiting| ==> waiting[i].id != waiting[k].id)
    && (forall id :: IsOpen(s.stage, id) ==> forall d :: d in waiting ==> d.id != id)
  }

  /** The slot of the attempt under way is the only one that is open. */
  ghost predicate OpenOk(s: State) {
    forall id, slot :: TakingOf(s.log, id, slot) == Open <==> Holds(s.stage, id, slot)
  }

  /** A standing slot was not completed, and one that was shut stands on a schedule that is disabled. */
  ghost predicate StandingOk(s: State) {
    forall id :: id in s.schedules && s.schedules[id].next.Some? ==>
      var t := TakingOf(s.log, id, s.schedules[id].next.value);
      t != Done && (t == Shut ==> !s.schedules[id].fields.enabled)
  }

  ghost predicate Inv(s: State) {
    TakenWhenFree(s.log) && SlotsOk(s) && QueueOk(s) && OpenOk(s) && StandingOk(s)
  }

  // ---- entries and what they do to a slot

  lemma TakingOfAppend(log: seq<Entry>, e: Entry)
    ensures forall id, slot :: TakingOf(log + [e], id, slot) == After(TakingOf(log, id, slot), e, id, slot)
  {
    assert (log + [e])[..|log|] == log;
  }

  lemma TakenStays(log: seq<Entry>, e: Entry)
    requires TakenWhenFree(log) && (e.Inserted? ==> Free(log, e.id, e.slot))
    ensures TakenWhenFree(log + [e])
  {
    var longer := log + [e];
    forall j | 0 <= j < |longer| && longer[j].Inserted?
      ensures Free(longer[..j], longer[j].id, longer[j].slot)
    {
      assert longer[..j] == log[..j];
      assert log[..|log|] == log;
    }
  }

  /** A slot that was never written was never taken. */
  lemma {:induction false} NewSlotIsUntaken(log: seq<Entry>, id: ScheduleId, slot: Slot)
    requires forall k :: 0 <= k < |log| ==> log[k] != Inserted(id, slot)
    ensures TakingOf(log, id, slot) == Untaken
  {
    if log != [] {
      NewSlotIsUntaken(log[..|log| - 1], id, slot);
    }
  }

  // ---- the invariant, step by step

  lemma SaveKeepsInv(s: State, id: ScheduleId, fields: Fields)
    requires Inv(s)
    ensures Inv(SaveStep(s, id, fields))
  {
    if id in s.schedules {
      var stood := s.schedules[id];
      if fields.enabled && !stood.fields.enabled && stood.next.Some? {
        ReopeningKeepsInv(s, id, stood.next.value);
        FieldsKeepInv(Log(s, Reopened(id, stood.next.value)), id, fields);
      } else {
        FieldsKeepInv(s, id, fields);
      }
    }
  }

  lemma ReopeningKeepsInv(s: State, id: ScheduleId, slot: Slot)
    requires Inv(s)
    ensures Inv(Log(s, Reopened(id, slot))) && TakingOf(Log(s, Reopened(id, slot)).log, id, slot) != Shut
  {
    TakenStays(s.log, Reopened(id, slot));
    TakingOfAppend(s.log, Reopened(id, slot));
  }

  lemma FieldsKeepInv(s: State, id: ScheduleId, fields: Fields)
    requires Inv(s) && id in s.schedules
    requires fields.enabled && s.schedules[id].next.Some? ==> TakingOf(s.log, id, s.schedules[id].next.value) != Shut
    ensures Inv(s.(schedules := s.schedules[id := s.schedules[id].(fields := fields)]))
  {
  }

  lemma WriteKeepsInv(s: State, id: ScheduleId, at: Option<int>)
    requires Inv(s)
    ensures Inv(Write(s, id, at))
  {
    if at.Some? {
      NewSlotIsUntaken(s.log, id, Slot(at.value, s.slots));
    }
  }

  lemma DeleteKeepsInv(s: State, id: ScheduleId)
    requires Inv(s)
    ensures Inv(s.(schedules := s.schedules - {id}))
  {
  }

  // ---- the invariant over the worker's steps

  /** Going on to the next schedule of a list that was waiting. */
  lemma MovingOnKeepsInv(s: State, queue: seq<Due>)
    requires Inv(s) && forall id :: !IsOpen(s.stage, id)
    requires queue == [] || (|Waiting(s.stage)| > 0 && queue == Waiting(s.stage)[1..])
    ensures Inv(s.(stage := Next(queue)))
  {
    assert Waiting(Next(queue)) == queue;
    assert forall d :: d in queue ==> d in Waiting(s.stage);
  }

  /** Everything but where the worker is, while its attempt ends with entry `e`. */
  lemma EndingKeepsInv(s: State, t: State, e: Entry, queue: seq<Due>)
    requires Inv(s) && (s.stage.Producing? || s.stage.Rearming? || s.stage.Disabling?)
    requires queue == [] || queue == Waiting(s.stage)
    requires Ends(e, s.stage.due.id) && t.log == s.log + [e] && t.slots == s.slots && t.stage == Next(queue)
    requires forall id :: id in t.schedules ==> id in s.schedules && t.schedules[id].next == s.schedules[id].next
    requires forall id :: id in t.schedules ==> (t.schedules[id].fields.enabled ==> s.schedules[id].fields.enabled)
    requires var id := s.stage.due.id; id in t.schedules && t.schedules[id].next == Some(s.stage.due.slot) ==>
      !e.Rearmed? && (e.Disabled? ==> !t.schedules[id].fields.enabled)
    ensures Inv(t)
  {
    assert Waiting(Next(queue)) == queue;
    TakenStays(s.log, e);
    TakingOfAppend(s.log, e);
  }

  lemma GiveUpKeepsInv(s: State, queue: seq<Due>)
    requires Inv(s) && (s.stage.Producing? || s.stage.Rearming? || s.stage.Disabling?)
    requires queue == [] || queue == Waiting(s.stage)
    ensures Inv(GiveUp(s, s.stage.due.id, queue))
  {
    EndingKeepsInv(s, GiveUp(s, s.stage.due.id, queue), Interrupted(s.stage.due.id), queue);
  }

  lemma RearmKeepsInv(s: State, due: Due, clock: int, at: int, queue: seq<Due>)
    requires Inv(s) && s.stage == Rearming(due, clock, at, queue)
    ensures Inv(Rearm(s, due, clock, at, queue))
  {
    WriteKeepsInv(s, due.id, Some(at));
    assert Open == TakingOf(s.log, due.id, due.slot);
    AnOpenSlotWasWritten(s, due.id, due.slot);
    EndingKeepsInv(Write(s, due.id, Some(at)), Rearm(s, due, clock, at, queue), Rearmed(due.id, clock, at), queue);
  }

  /** A slot under way was written before the next one. */
  lemma AnOpenSlotWasWritten(s: State, id: ScheduleId, slot: Slot)
    requires SlotsOk(s) && TakingOf(s.log, id, slot) != Untaken
    ensures slot.written < s.slots
  {
    if slot.written >= s.slots {
      NewSlotIsUntaken(s.log, id, slot);
    }
  }

  lemma CloseKeepsInv(s: State, due: Due, queue: seq<Due>)
    requires Inv(s) && s.stage == Disabling(due, queue)
    ensures Inv(Close(s, due, queue))
  {
    EndingKeepsInv(s, Close(s, due, queue), Disabled(due.id), queue);
  }

  /** Taking the slot: it was free, so it is taken for the first time, or its earlier taking explains it. */
  lemma TakingKeepsInv(s: State, due: Due, fields: Fields, queue: seq<Due>)
    requires Inv(s) && s.stage == Inserting(due, fields, queue)
    ensures Inv(Insert(s, due, fields).(stage := Producing(due, fields, queue)))
  {
    var e := Inserted(due.id, due.slot);
    var waiting := Waiting(s.stage);
    assert waiting[0] == due && due in waiting;
    TakenStays(s.log, e);
    TakingOfAppend(s.log, e);
    OthersWaitBehind(due, queue);
  }

  lemma OthersWaitBehind(due: Due, queue: seq<Due>)
    requires var waiting := [due] + queue; forall i, k :: 0 <= i < k < |waiting| ==> waiting[i].id != waiting[k].id
    ensures forall d :: d in queue ==> d.id != due.id && d in [due] + queue
    ensures forall i, k :: 0 <= i < k < |queue| ==> queue[i].id != queue[k].id
  {
    var waiting := [due] + queue;
    assert forall i :: 0 <= i < |queue| ==> queue[i] == waiting[i + 1];
    assert waiting[0] == due;
  }

  lemma InsertKeepsInv(s: State, due: Due, fields: Fields, queue: seq<Due>, move: Move)
    requires Inv(s) && s.stage == Inserting(due, fields, queue)
    ensures Inv(InsertStep(s, due, fields, queue, move))
  {
    MovingOnKeepsInv(s, []);
    assert Waiting(s.stage)[1..] == queue;
    MovingOnKeepsInv(s, queue);
    if !Refused(due, fields) && (move.Proceed? || (move.Fault? && move.committed)) {
      TakingKeepsInv(s, due, fields, queue);
      GiveUpKeepsInv(Insert(s, due, fields).(stage := Producing(due, fields, queue)), queue);
    }
  }

  lemma ReadKeepsInv(s: State, due: Due, queue: seq<Due>, move: Move)
    requires Inv(s) && s.stage == Reading(due, queue)
    ensures Inv(ReadStep(s, due, queue, move))
  {
    var t := ReadStep(s, due, queue, move);
    if t.stage == Next([]) {
      MovingOnKeepsInv(s, []);
    } else if t.stage == Next(queue) {
      assert Waiting(s.stage)[1..] == queue;
      MovingOnKeepsInv(s, queue);
    } else {
      StillWaitingKeepsInv(s, t.stage);
    }
  }

  /** The schedule whose turn it is has been read again, or not yet. */
  lemma StillWaitingKeepsInv(s: State, stage: Stage)
    requires Inv(s) && Waiting(stage) == Waiting(s.stage)
    requires forall id :: !IsOpen(s.stage, id) && !IsOpen(stage, id)
    ensures Inv(s.(stage := stage))
  {
  }

  lemma ListedAreFree(s: State, now: int, due: seq<Due>)
    requires Inv(s) && s.stage == Idle && IsDueRead(s, now, due)
    ensures forall d :: d in due ==> Free(s.log, d.id, d.slot) && d.slot.written < s.slots
    ensures forall i, k :: 0 <= i < k < |due| ==> due[i].id != due[k].id
  {
    forall d | d in due
      ensures Free(s.log, d.id, d.slot) && d.slot.written < s.slots
    {
      var k :| 0 <= k < |due| && due[k] == d;
      assert IsDue(s, due[k].id, now);
    }
  }

  lemma ListKeepsInv(s: State, due: seq<Due>)
    requires Inv(s) && s.stage == Idle
    requires forall d :: d in due ==> Free(s.log, d.id, d.slot) && d.slot.written < s.slots
    requires forall i, k :: 0 <= i < k < |due| ==> due[i].id != due[k].id
    ensures Inv(s.(stage := Next(due)))
  {
    assert Waiting(Next(due)) == due;
  }

  lemma SameWorkKeepsInv(s: State, stage: Stage)
    requires Inv(s) && Waiting(stage) == Waiting(s.stage)
    requires !stage.Idle? && !s.stage.Idle? && stage.due == s.stage.due && IsOpen(s.stage, s.stage.due.id) && IsOpen(stage, stage.due.id)
    ensures Inv(s.(stage := stage))
  {
    assert forall id :: IsOpen(stage, id) <==> IsOpen(s.stage, id);
  }

  lemma ProduceKeepsInv(s: State, due: Due, fields: Fields, queue: seq<Due>, move: Move)
    requires Inv(s) && s.stage == Producing(due, fields, queue)
    ensures Inv(ProduceStep(s, due, fields, queue, move))
  {
    match move
    case NextRun(at) => SameWorkKeepsInv(s, Rearming(due, s.clock, at, queue));
    case NoNext => SameWorkKeepsInv(s, Rearming(due, s.clock, s.clock + REARM_HORIZON, queue));
    case Proceed => SameWorkKeepsInv(s, Disabling(due, queue));
    case Fault(_) => GiveUpKeepsInv(s, queue);
    case Crash => GiveUpKeepsInv(s, []);
    case List(_, _) =>
  }

  lemma RearmStepKeepsInv(s: State, due: Due, clock: int, at: int, queue: seq<Due>, move: Move)
    requires Inv(s) && s.stage == Rearming(due, clock, at, queue)
    ensures Inv(RearmStep(s, due, clock, at, queue, move))
  {
    GiveUpKeepsInv(s, queue);
    GiveUpKeepsInv(s, []);
    RearmKeepsInv(s, due, clock, at, queue);
  }

  lemma DisableStepKeepsInv(s: State, due: Due, queue: seq<Due>, move: Move)
    requires Inv(s) && s.stage == Disabling(due, queue)
    ensures Inv(DisableStep(s, due, queue, move))
  {
    GiveUpKeepsInv(s, queue);
    GiveUpKeepsInv(s, []);
    CloseKeepsInv(s, due, queue);
  }

  lemma WorkerKeepsInv(s: State, move: Move)
    requires Inv(s)
    ensures Inv(WorkerStep(s, move))
  {
    match s.stage
    case Idle =>
      if move.List? && IsDueRead(s, move.now, move.due) {
        ListedAreFree(s, move.now, move.due);
        ListKeepsInv(s, move.due);
      }
    case Reading(due, queue) => ReadKeepsInv(s, due, queue, move);
    case Inserting(due, fields, queue) => InsertKeepsInv(s, due, fields, queue, move);
    case Producing(due, fields, queue) => ProduceKeepsInv(s, due, fields, queue, move);
    case Rearming(due, clock, at, queue) => RearmStepKeepsInv(s, due, clock, at, queue, move);
    case Disabling(due, queue) => DisableStepKeepsInv(s, due, queue, move);
  }

  lemma ActionKeepsInv(s: State, a: Action)
    requires Inv(s)
    ensures Inv(Apply(s, a))
  {
    match a
    case Advance(_) =>
    case Save(id, fields) => SaveKeepsInv(s, id, fields);
    case HandWrite(id, fields) => SaveKeepsInv(s, id, fields);
    case SaveSlot(id, at) => WriteKeepsInv(s, id, at);
    case Delete(id) => DeleteKeepsInv(s, id);
    case ByWorker(move) => WorkerKeepsInv(s, move);
  }

  lemma {:induction false} EveryRunKeepsInv(run: seq<Action>)
    ensures Inv(Exec(run))
  {
    if run != [] {
      EveryRunKeepsInv(run[..|run| - 1]);
      ActionKeepsInv(Exec(run[..|run| - 1]), run[|run| - 1]);
    }
  }

  // ---- what lies between two takings of a slot

  /** Position `k` is the first ending of an attempt on `id` behind position `i`. */
  predicate FirstEnding(log: seq<Entry>, i: nat, k: nat, id: ScheduleId) {
    i < k < |log| && Ends(log[k], id) && forall m :: i < m < k ==> !Ends(log[m], id)
  }

  /**
   The attempt that took the slot at `i` ended before `upTo`: it was given up; or it ended with the
   schedule disabled, and behind that an edit enabled the schedule again with the slot standing.
   */
  ghost predicate Excused(log: seq<Entry>, i: nat, upTo: nat, id: ScheduleId, slot: Slot)
    requires upTo <= |log|
  {
    exists k: nat :: FirstEnding(log, i, k, id) && k < upTo
      && (log[k] == Interrupted(id) || (log[k] == Disabled(id) && ReopenedBetween(log, k, upTo, id, slot)))
  }

  ghost predicate ReopenedBetween(log: seq<Entry>, k: nat, upTo: nat, id: ScheduleId, slot: Slot)
    requires upTo <= |log|
  {
    exists m :: k < m < upTo && log[m] == Reopened(id, slot)
  }

  /** Without an excuse the taking at `i` is still what the slot stands at. */
  ghost predicate Unexcused(log: seq<Entry>, i: nat, n: nat, id: ScheduleId, slot: Slot)
    requires n <= |log|
  {
    match TakingOf(log[..n], id, slot)
    case Open => forall m :: i < m < n ==> !Ends(log[m], id)
    case Done => exists k: nat :: FirstEnding(log, i, k, id) && k < n && log[k].Rearmed?
    case Shut => exists k: nat :: FirstEnding(log, i, k, id) && k < n && log[k] == Disabled(id)
    case _ => false
  }

  lemma {:induction false} ExcusedOrNot(log: seq<Entry>, i: nat, n: nat, id: ScheduleId, slot: Slot)
    requires TakenWhenFree(log) && i < n <= |log| && log[i] == Inserted(id, slot)
    ensures Excused(log, i, n, id, slot) || Unexcused(log, i, n, id, slot)
  {
    assert log[..n][..n - 1] == log[..n - 1] && log[..n][n - 1] == log[n - 1];
    if n > i + 1 {
      ExcusedOrNot(log, i, n - 1, id, slot);
      if Unexcused(log, i, n - 1, id, slot) {
        OneEntryLater(log, i, n - 1, id, slot);
      } else {
        ExcusedLater(log, i, n - 1, id, slot);
      }
    }
  }

  lemma ExcusedLater(log: seq<Entry>, i: nat, n: nat, id: ScheduleId, slot: Slot)
    requires n < |log| && Excused(log, i, n, id, slot)
    ensures Excused(log, i, n + 1, id, slot)
  {
    var k: nat :| FirstEnding(log, i, k, id) && k < n
      && (log[k] == Interrupted(id) || (log[k] == Disabled(id) && ReopenedBetween(log, k, n, id, slot)));
    if log[k] == Disabled(id) {
      var m :| k < m < n && log[m] == Reopened(id, slot);
      assert ReopenedBetween(log, k, n + 1, id, slot);
    }
  }

  lemma OneEntryLater(log: seq<Entry>, i: nat, n: nat, id: ScheduleId, slot: Slot)
    requires TakenWhenFree(log) && i < n < |log| && Unexcused(log, i, n, id, slot)
    ensures Excused(log, i, n + 1, id, slot) || Unexcused(log, i, n + 1, id, slot)
  {
    assert log[..n + 1][..n] == log[..n] && log[..n + 1][n] == log[n];
    assert TakingOf(log[..n + 1], id, slot) == After(TakingOf(log[..n], id, slot), log[n], id, slot);
    assert log[n] != Inserted(id, slot);
    match TakingOf(log[..n], id, slot)
    case Open =>
      if Ends(log[n], id) {
        assert FirstEnding(log, i, n, id);
      }
    case Shut =>
      var k: nat :| FirstEnding(log, i, k, id) && k < n && log[k] == Disabled(id);
      if log[n] == Reopened(id, slot) {
        assert ReopenedBetween(log, k, n + 1, id, slot);
      }
    case _ =>
  }

  /**
   In every run: when a slot is taken a second time, the attempt that took it before was given up
   before it rearmed; or it ended with the schedule disabled, and after that an operator's edit
   enabled the schedule again while the slot was still standing. Which of the two is decided by the
   first ending behind the earlier taking.
   */
  lemma ASlotIsTakenTwiceOnlyExcused(run: seq<Action>, i: nat, j: nat)
    requires i < j < |Exec(run).log| && Exec(run).log[i].Inserted? && Exec(run).log[j] == Exec(run).log[i]
    ensures var log := Exec(run).log; Excused(log, i, j, log[i].id, log[i].slot)
  {
    EveryRunKeepsInv(run);
    ExcusedOrNot(Exec(run).log, i, j, Exec(run).log[i].id, Exec(run).log[i].slot);
  }

  // ---- and it is taken again whenever it stands

  lemma FaultsSkip(run: seq<Action>, due: seq<Due>, k: nat) returns (more: seq<Action>)
    requires k < |due| && Exec(run).stage == Reading(due[0], due[1..])
    ensures run <= more && Exec(more) == Exec(run).(stage := Reading(due[k], due[k + 1..]))
    decreases k
  {
    more := run;
    if k > 0 {
      var next := run + [ByWorker(Fault(false))];
      assert next[..|run|] == run;
      assert due[1..][0] == due[1] && due[1..][1..] == due[2..];
      assert Exec(next) == Exec(run).(stage := Reading(due[1], due[2..]));
      more := FaultsSkip(next, due[1..], k - 1);
      assert due[1..][k - 1] == due[k] && due[1..][k - 1 + 1..] == due[k + 1..];
    }
  }

  /**
   The other half: whatever happened to it before, a slot that stands and is due on an enabled
   schedule is taken by the next list that names it. So after an edit enables a schedule that the
   worker disabled, and until the edit's second statement, the slot is taken again.
   */
  lemma AStandingSlotIsTaken(run: seq<Action>, now: int, due: seq<Due>, k: nat) returns (more: seq<Action>)
    requires Exec(run).stage == Idle && IsDueRead(Exec(run), now, due) && k < |due|
    ensures run <= more && Exec(more).log == Exec(run).log + [Inserted(due[k].id, due[k].slot)]
  {
    var s := Exec(run);
    var listed := run + [ByWorker(List(now, due))];
    assert listed[..|run|] == run;
    assert Exec(listed) == s.(stage := Reading(due[0], due[1..]));
    var skipped := FaultsSkip(listed, due, k);
    assert IsDue(s, due[k].id, now);
    var fields := s.schedules[due[k].id].fields;
    var read := skipped + [ByWorker(Proceed)];
    assert read[..|skipped|] == skipped;
    assert Exec(read) == s.(stage := Inserting(due[k], fields, due[k + 1..]));
    more := read + [ByWorker(Proceed)];
    assert more[..|read|] == read;
    assert !Refused(due[k], fields);
  }

  // ---- running ahead of the clock

  /** What waits to be taken was due when it was listed. */
  ghost predicate ListedWasDue(s: State) {
    && (forall d :: d in Waiting(s.stage) ==> d.slot.at <= s.clock)
    && (!s.stage.Idle? ==> s.stage.due.slot.at <= s.clock)
  }

  lemma NextWasDue(s: State, queue: seq<Due>)
    requires forall d :: d in queue ==> d.slot.at <= s.clock
    ensures ListedWasDue(s.(stage := Next(queue)))
  {
    assert Waiting(Next(queue)) == queue;
  }

  /** A busy worker stays on its schedule, goes on to the next one, or stops. */
  lemma StaysOrMovesOn(s: State, move: Move)
    requires !s.stage.Idle?
    ensures var t := WorkerStep(s, move);
      && t.clock == s.clock
      && (t.stage == Idle || t.stage == Next(s.stage.queue)
          || (!t.stage.Idle? && t.stage.due == s.stage.due && t.stage.queue == s.stage.queue))
  {
  }

  lemma WorkerKeepsDue(s: State, move: Move)
    requires ListedWasDue(s)
    ensures ListedWasDue(WorkerStep(s, move))
  {
    if s.stage.Idle? {
      if move.List? && IsDueRead(s, move.now, move.due) {
        DueReadIsDue(s, move.now, move.due);
        NextWasDue(s, move.due);
      }
    } else {
      StaysOrMovesOn(s, move);
      var t, queue := WorkerStep(s, move), s.stage.queue;
      assert forall d :: d in queue ==> d in Waiting(s.stage);
      if t.stage == Next(queue) {
        NextWasDue(t, queue);
      } else if !t.stage.Idle? {
        assert forall d :: d in Waiting(t.stage) ==> d == s.stage.due || d in queue;
      }
    }
  }

  lemma {:induction false} TakenWasDueWhenListed(run: seq<Action>)
    ensures ListedWasDue(Exec(run))
  {
    if run != [] {
      TakenWasDueWhenListed(run[..|run| - 1]);
      var s, a := Exec(run[..|run| - 1]), run[|run| - 1];
      if a.ByWorker? {
        WorkerKeepsDue(s, a.move);
      }
    }
  }

  lemma DueReadIsDue(s: State, now: int, due: seq<Due>)
    requires IsDueRead(s, now, due)
    ensures forall d :: d in due ==> d.slot.at <= s.clock
  {
    forall d | d in due
      ensures d.slot.at <= s.clock
    {
      var k :| 0 <= k < |due| && due[k] == d;
      assert IsDue(s, due[k].id, now);
    }
  }
}
