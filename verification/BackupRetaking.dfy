/**
 When a slot that was taken is taken again without an interruption: exactly when the time of day of
 its schedule could not be read by the attempt that took it. No write route stores such a schedule.
 */
module BackupRetaking {
  import opened Options
  import opened BackupSchedules
  import opened BackupAccounting

  const NO_FIELDS := Fields(false, [], false, false)

  /** Beside every entry of the log, the fields the worker had read when it logged it. */
  function ReadBy(run: seq<Action>): (fields: seq<Fields>)
    ensures |fields| == |Exec(run).log|
  {
    if run == [] then []
    else
      var before, after := Exec(run[..|run| - 1]), Exec(run);
      LogOnlyGrows(before, run[|run| - 1]);
      var read := if before.stage.Inserting? then before.stage.fields else NO_FIELDS;
      ReadBy(run[..|run| - 1]) + seq(|after.log| - |before.log|, _ => read)
  }

  lemma LogOnlyGrows(s: State, a: Action)
    ensures s.log <= Apply(s, a).log
  {
  }

  /** The ending of the attempt that took a slot at `i`, as far as the log goes. */
  function EndOf(log: seq<Entry>, i: nat, id: ScheduleId): Option<Entry> {
    if |log| <= i + 1 then None
    else
      var before, last := EndOf(log[..|log| - 1], i, id), log[|log| - 1];
      if before.Some? then before else if Ends(last, id) then Some(last) else None
  }

  lemma EndOfAppend(log: seq<Entry>, e: Entry, i: nat, id: ScheduleId)
    ensures EndOf(log + [e], i, id) ==
      if EndOf(log, i, id).Some? then EndOf(log, i, id) else if i < |log| && Ends(e, id) then Some(e) else None
  {
    assert (log + [e])[..|log|] == log;
    if |log| <= i {
      assert EndOf(log, i, id) == None;
    }
  }

  lemma {:induction false} EndOfIsFirstEnding(log: seq<Entry>, i: nat, k: nat, id: ScheduleId)
    requires FirstEnding(log, i, k, id)
    ensures EndOf(log, i, id) == Some(log[k])
  {
    var front := log[..|log| - 1];
    if k == |log| - 1 {
      NoEndYet(front, i, id);
    } else {
      assert FirstEnding(front, i, k, id);
      EndOfIsFirstEnding(front, i, k, id);
    }
  }

  lemma {:induction false} NoEndYet(log: seq<Entry>, i: nat, id: ScheduleId)
    requires forall m :: i < m < |log| ==> !Ends(log[m], id)
    ensures EndOf(log, i, id) == None
  {
    if |log| > i + 1 {
      NoEndYet(log[..|log| - 1], i, id);
    }
  }

  // ---- what the attempt read decides how it may end

  /** One taking: ended otherwise than by disabling if its time could be read, or still under way. */
  ghost predicate ToldOf(stage: Stage, log: seq<Entry>, i: nat, id: ScheduleId, fields: Fields) {
    match EndOf(log, i, id)
    case Some(e) => fields.timeReadable ==> !e.Disabled?
    case None =>
      && IsOpen(stage, id)
      && (stage.Producing? ==> stage.fields == fields)
      && (stage.Disabling? ==> !fields.timeReadable)
  }

  ghost predicate Told(s: State, read: seq<Fields>) {
    |read| == |s.log|
    && forall i :: 0 <= i < |s.log| && s.log[i].Inserted? ==> ToldOf(s.stage, s.log, i, s.log[i].id, read[i])
  }

  /** The stage moves while the log stands: the attempt under way is still under way. */
  lemma MovingKeepsTold(s: State, t: State, read: seq<Fields>)
    requires Told(s, read) && t.log == s.log
    requires forall id :: IsOpen(s.stage, id) ==>
      && IsOpen(t.stage, id)
      && (t.stage.Producing? ==> s.stage.Producing? && t.stage.fields == s.stage.fields)
      && (t.stage.Disabling? ==> s.stage.Disabling? || (s.stage.Producing? && !s.stage.fields.timeReadable))
    ensures Told(t, read)
  {
  }

  /** An entry that takes nothing. */
  lemma EntryKeepsTold(s: State, t: State, e: Entry, read: seq<Fields>, extra: Fields)
    requires Told(s, read) && !e.Inserted? && t.log == s.log + [e]
    requires forall id :: IsOpen(s.stage, id) ==> Ends(e, id) || t.stage == s.stage
    requires forall id :: IsOpen(s.stage, id) && Ends(e, id) && e.Disabled? ==> s.stage.Disabling?
    ensures Told(t, read + [extra])
  {
    forall i | 0 <= i < |t.log| && t.log[i].Inserted?
      ensures ToldOf(t.stage, t.log, i, t.log[i].id, (read + [extra])[i])
    {
      assert i < |s.log| && t.log[i] == s.log[i];
      EndOfAppend(s.log, e, i, s.log[i].id);
    }
  }

  /** A slot is taken: with no attempt under way, by one that has just read these fields. */
  lemma InsertKeepsTold(s: State, t: State, e: Entry, read: seq<Fields>, fields: Fields)
    requires Told(s, read) && e.Inserted? && t.log == s.log + [e]
    requires forall id :: !IsOpen(s.stage, id)
    requires t.stage.Producing? && t.stage.due.id == e.id && t.stage.fields == fields
    ensures Told(t, read + [fields])
  {
    forall i | 0 <= i < |t.log| && t.log[i].Inserted?
      ensures ToldOf(t.stage, t.log, i, t.log[i].id, (read + [fields])[i])
    {
      if i < |s.log| {
        EndOfAppend(s.log, e, i, s.log[i].id);
      } else {
        NoEndYet(t.log, i, e.id);
      }
    }
  }

  // ---- step by step

  function ReadOf(s: State): Fields {
    if s.stage.Inserting? then s.stage.fields else NO_FIELDS
  }

  ghost predicate ToldNext(s: State, t: State, read: seq<Fields>) {
    |t.log| >= |s.log| && Told(t, read + seq(|t.log| - |s.log|, _ => ReadOf(s)))
  }

  lemma NothingMore(s: State, t: State, read: seq<Fields>)
    requires Told(t, read) && |t.log| == |s.log|
    ensures ToldNext(s, t, read)
  {
    assert read + seq(0, _ => ReadOf(s)) == read;
  }

  lemma OneMore(s: State, t: State, read: seq<Fields>)
    requires Told(t, read + [ReadOf(s)]) && |t.log| == |s.log| + 1
    ensures ToldNext(s, t, read)
  {
    assert seq(1, _ => ReadOf(s)) == [ReadOf(s)];
  }

  lemma GiveUpTold(s: State, queue: seq<Due>, read: seq<Fields>, extra: Fields)
    requires Told(s, read) && (s.stage.Producing? || s.stage.Rearming? || s.stage.Disabling?)
    ensures Told(GiveUp(s, s.stage.due.id, queue), read + [extra])
  {
    EntryKeepsTold(s, GiveUp(s, s.stage.due.id, queue), Interrupted(s.stage.due.id), read, extra);
  }

  lemma InsertTold(s: State, due: Due, fields: Fields, queue: seq<Due>, move: Move, read: seq<Fields>)
    requires Told(s, read) && s.stage == Inserting(due, fields, queue)
    ensures ToldNext(s, InsertStep(s, due, fields, queue, move), read)
  {
    var t, taken := InsertStep(s, due, fields, queue, move), Insert(s, due, fields).(stage := Producing(due, fields, queue));
    if t.log == s.log {
      MovingKeepsTold(s, t, read);
      NothingMore(s, t, read);
    } else {
      InsertKeepsTold(s, taken, Inserted(due.id, due.slot), read, fields);
      if move.Proceed? {
        OneMore(s, t, read);
      } else {
        GiveUpTold(taken, queue, read + [fields], fields);
        assert GiveUp(taken, due.id, queue) == t;
        assert read + seq(2, _ => fields) == read + [fields] + [fields];
      }
    }
  }

  lemma ProduceTold(s: State, due: Due, fields: Fields, queue: seq<Due>, move: Move, read: seq<Fields>)
    requires Told(s, read) && s.stage == Producing(due, fields, queue)
    ensures ToldNext(s, ProduceStep(s, due, fields, queue, move), read)
  {
    var t := ProduceStep(s, due, fields, queue, move);
    if move.Fault? || move.Crash? {
      GiveUpTold(s, if move.Fault? then queue else [], read, NO_FIELDS);
      OneMore(s, t, read);
    } else {
      DisablesIffUnreadable(s, move);
      MovingKeepsTold(s, t, read);
      NothingMore(s, t, read);
    }
  }

  /** An attempt goes on to disable its schedule exactly when the time of day could not be read. */
  lemma DisablesIffUnreadable(s: State, move: Move)
    requires s.stage.Producing? && !move.Fault? && !move.Crash?
    ensures var t := WorkerStep(s, move);
      && (t.stage != s.stage ==> t.stage.Rearming? || t.stage.Disabling?)
      && (t.stage.Disabling? <==> !s.stage.fields.timeReadable && move.Proceed?)
      && (t.stage.Rearming? ==> s.stage.fields.timeReadable)
      && (t.stage.Producing? || t.stage.Rearming? || t.stage.Disabling?)
      && t.stage.due == s.stage.due && t.log == s.log
      && (t.stage.Producing? ==> t.stage == s.stage)
  {
  }

  lemma RearmTold(s: State, due: Due, clock: int, at: int, queue: seq<Due>, move: Move, read: seq<Fields>)
    requires Told(s, read) && s.stage == Rearming(due, clock, at, queue)
    ensures ToldNext(s, RearmStep(s, due, clock, at, queue, move), read)
  {
    var t := RearmStep(s, due, clock, at, queue, move);
    if t.log == s.log {
      NothingMore(s, t, read);
    } else {
      EntryKeepsTold(s, t, t.log[|s.log|], read, NO_FIELDS);
      OneMore(s, t, read);
    }
  }

  lemma DisableTold(s: State, due: Due, queue: seq<Due>, move: Move, read: seq<Fields>)
    requires Told(s, read) && s.stage == Disabling(due, queue)
    ensures ToldNext(s, DisableStep(s, due, queue, move), read)
  {
    var t := DisableStep(s, due, queue, move);
    if t.log == s.log {
      NothingMore(s, t, read);
    } else {
      EntryKeepsTold(s, t, t.log[|s.log|], read, NO_FIELDS);
      OneMore(s, t, read);
    }
  }

  /** Between attempts, and when operators act, no attempt ends and none begins. */
  lemma OtherStepTold(s: State, a: Action, read: seq<Fields>)
    requires Told(s, read)
    requires a.ByWorker? ==> s.stage.Idle? || s.stage.Reading?
    ensures ToldNext(s, Apply(s, a), read)
  {
    var t := Apply(s, a);
    if t.log == s.log {
      MovingKeepsTold(s, t, read);
      NothingMore(s, t, read);
    } else {
      assert t.log[|s.log|].Reopened? && t.stage == s.stage;
      EntryKeepsTold(s, t, t.log[|s.log|], read, ReadOf(s));
      OneMore(s, t, read);
    }
  }

  lemma StepTold(s: State, a: Action, read: seq<Fields>)
    requires Told(s, read)
    ensures ToldNext(s, Apply(s, a), read)
  {
    if !a.ByWorker? || s.stage.Idle? || s.stage.Reading? {
      OtherStepTold(s, a, read);
    } else {
      match s.stage
      case Inserting(due, fields, queue) => InsertTold(s, due, fields, queue, a.move, read);
      case Producing(due, fields, queue) => ProduceTold(s, due, fields, queue, a.move, read);
      case Rearming(due, clock, at, queue) => RearmTold(s, due, clock, at, queue, a.move, read);
      case Disabling(due, queue) => DisableTold(s, due, queue, a.move, read);
    }
  }

  lemma {:induction false} EveryRunIsTold(run: seq<Action>)
    ensures Told(Exec(run), ReadBy(run))
  {
    if run != [] {
      EveryRunIsTold(run[..|run| - 1]);
      StepTold(Exec(run[..|run| - 1]), run[|run| - 1], ReadBy(run[..|run| - 1]));
    }
  }

  // ---- the property, under its guard

  /**
   When a slot is taken twice, the attempt that took it before was interrupted before it rearmed,
   provided that attempt could read the time of day of its schedule.
   */
  lemma ReadableSlotsAreRetakenOnlyInterrupted(run: seq<Action>, i: nat, j: nat) returns (k: nat)
    requires i < j < |Exec(run).log| && Exec(run).log[i].Inserted? && Exec(run).log[j] == Exec(run).log[i]
    ensures var log := Exec(run).log;
      && k < j && FirstEnding(log, i, k, log[i].id)
      && (log[k] == Interrupted(log[i].id) || log[k] == Disabled(log[i].id))
      && (ReadBy(run)[i].timeReadable ==> log[k] == Interrupted(log[i].id))
  {
    ASlotIsTakenTwiceOnlyExcused(run, i, j);
    EveryRunIsTold(run);
    var log := Exec(run).log;
    var id, slot := log[i].id, log[i].slot;
    var first: nat :| FirstEnding(log, i, first, id) && first < j
      && (log[first] == Interrupted(id) || (log[first] == Disabled(id) && ReopenedBetween(log, first, j, id, slot)));
    k := first;
    EndOfIsFirstEnding(log, i, k, id);
    assert ToldOf(Exec(run).stage, log, i, id, ReadBy(run)[i]);
  }

  /** No row was written past the routes with a time of day that cannot be read. */
  predicate OnlyReadable(run: seq<Action>) {
    forall k :: 0 <= k < |run| && run[k].HandWrite? ==> run[k].fields.timeReadable
  }

  ghost predicate AllReadable(s: State) {
    && (forall id :: id in s.schedules ==> s.schedules[id].fields.timeReadable)
    && (s.stage.Inserting? || s.stage.Producing? ==> s.stage.fields.timeReadable)
    && !s.stage.Disabling?
  }

  lemma StepStaysReadable(s: State, a: Action)
    requires AllReadable(s) && (a.HandWrite? ==> a.fields.timeReadable)
    ensures AllReadable(Apply(s, a))
  {
    if a.ByWorker? {
      WorkerStaysReadable(s, a.move);
    }
  }

  lemma WorkerStaysReadable(s: State, move: Move)
    requires AllReadable(s)
    ensures AllReadable(WorkerStep(s, move))
  {
    match s.stage
    case Inserting(due, fields, queue) => assert InsertStep(s, due, fields, queue, move).schedules == s.schedules;
    case _ =>
  }

  lemma {:induction false} ReadableRunsStayReadable(run: seq<Action>)
    requires OnlyReadable(run)
    ensures AllReadable(Exec(run))
    ensures forall i :: 0 <= i < |Exec(run).log| && Exec(run).log[i].Inserted? ==> ReadBy(run)[i].timeReadable
  {
    if run != [] {
      var before, a := run[..|run| - 1], run[|run| - 1];
      assert OnlyReadable(before) by {
        assert forall k :: 0 <= k < |before| ==> before[k] == run[k];
      }
      ReadableRunsStayReadable(before);
      StepStaysReadable(Exec(before), a);
      LogOnlyGrows(Exec(before), a);
      OnlyInsertingInserts(Exec(before), a);
    }
  }

  lemma OnlyInsertingInserts(s: State, a: Action)
    ensures forall i :: |s.log| <= i < |Apply(s, a).log| && Apply(s, a).log[i].Inserted? ==> s.stage.Inserting?
  {
  }

  /** Through the write routes alone, a slot is taken twice only if an attempt was interrupted before rearming. */
  lemma RoutesRetakeOnlyInterrupted(run: seq<Action>, i: nat, j: nat) returns (k: nat)
    requires OnlyReadable(run)
    requires i < j < |Exec(run).log| && Exec(run).log[i].Inserted? && Exec(run).log[j] == Exec(run).log[i]
    ensures var log := Exec(run).log; k < j && FirstEnding(log, i, k, log[i].id) && log[k] == Interrupted(log[i].id)
  {
    ReadableRunsStayReadable(run);
    k := ReadableSlotsAreRetakenOnlyInterrupted(run, i, j);
  }

  // ---- and the other half: without it, the slot can be taken again uninterrupted

  /** A continuation in which the slot is taken again and no attempt on its schedule is interrupted before. */
  ghost predicate RetakesUninterrupted(run: seq<Action>, more: seq<Action>, due: Due) {
    run <= more && exists j :: (
      |Exec(run).log| <= j < |Exec(more).log| && Exec(more).log[j] == Inserted(due.id, due.slot)
      && NoneInterrupted(Exec(more).log, |Exec(run).log|, j, due.id))
  }

  ghost predicate NoneInterrupted(log: seq<Entry>, from: nat, upTo: nat, id: ScheduleId)
    requires upTo <= |log|
  {
    forall m :: from <= m < upTo ==> log[m] != Interrupted(id)
  }

  lemma {:induction false} RunsOnlyGrow(run: seq<Action>, more: seq<Action>)
    requires run <= more
    ensures Exec(run).log <= Exec(more).log && ReadBy(run) <= ReadBy(more)
  {
    if run == more {
    } else {
      var front := more[..|more| - 1];
      assert run <= front;
      RunsOnlyGrow(run, front);
      LogOnlyGrows(Exec(front), more[|more| - 1]);
    }
  }

  /** The entry that opened the attempt under way. */
  lemma {:induction false} OpenWasTaken(log: seq<Entry>, id: ScheduleId, slot: Slot) returns (i: nat)
    requires TakingOf(log, id, slot) == Open
    ensures i < |log| && log[i] == Inserted(id, slot) && forall m :: i < m < |log| ==> !Ends(log[m], id)
  {
    var front := log[..|log| - 1];
    if log[|log| - 1] == Inserted(id, slot) {
      i := |log| - 1;
    } else {
      i := OpenWasTaken(front, id, slot);
      assert forall m :: i < m < |front| ==> log[m] == front[m];
    }
  }

  lemma ReadableIsNotRetaken(run: seq<Action>, more: seq<Action>)
    requires Exec(run).stage.Producing? && RetakesUninterrupted(run, more, Exec(run).stage.due)
    ensures !Exec(run).stage.fields.timeReadable
  {
    var s, due := Exec(run), Exec(run).stage.due;
    EveryRunKeepsInv(run);
    assert Holds(s.stage, due.id, due.slot);
    var i := OpenWasTaken(s.log, due.id, due.slot);
    NoEndYet(s.log, i, due.id);
    EveryRunIsTold(run);
    assert ToldOf(s.stage, s.log, i, due.id, ReadBy(run)[i]);
    RunsOnlyGrow(run, more);
    var log := Exec(more).log;
    var j :| |s.log| <= j < |log| && log[j] == Inserted(due.id, due.slot) && NoneInterrupted(log, |s.log|, j, due.id);
    assert log[i] == s.log[i] && ReadBy(more)[i] == ReadBy(run)[i];
    assert forall m :: 0 <= m < |s.log| ==> log[m] == s.log[m];
    var k := ReadableSlotsAreRetakenOnlyInterrupted(more, i, j);
  }

  /** Operators may remove every other schedule. */
  lemma {:induction false} DeleteOthers(run: seq<Action>, others: set<ScheduleId>) returns (more: seq<Action>)
    ensures run <= more && Exec(more) == Exec(run).(schedules := Exec(run).schedules - others)
    decreases others
  {
    if others == {} {
      more := run;
      assert Exec(run).schedules - {} == Exec(run).schedules;
    } else {
      var id :| id in others;
      var next := run + [Delete(id)];
      assert next[..|run|] == run;
      more := DeleteOthers(next, others - {id});
      assert Exec(run).schedules - {id} - (others - {id}) == Exec(run).schedules - others;
    }
  }

  const FIXED := Fields(true, ["media"], true, true)

  /** The worker disables the schedule, and its tick is over. */
  lemma DisablesAndStops(run: seq<Action>) returns (more: seq<Action>)
    requires Exec(run).stage.Producing? && !Exec(run).stage.fields.timeReadable
    ensures var s, id := Exec(run), Exec(run).stage.due.id;
      run <= more && Exec(more) == Log(Disable(s, id), Disabled(id)).(stage := Idle)
  {
    var s := Exec(run);
    var Producing(due, fields, queue) := s.stage;
    var one := run + [ByWorker(Proceed)];
    assert one[..|run|] == run;
    assert Exec(one) == s.(stage := Disabling(due, queue));
    var two := one + [ByWorker(Proceed)];
    assert two[..|one|] == one;
    assert Exec(two) == Close(s, due, queue);
    more := two + [ByWorker(Crash)];
    assert more[..|two|] == two;
  }

  /** An operator saves the schedule with a time of day, and nothing else is due. */
  lemma SavesAlone(run: seq<Action>, id: ScheduleId) returns (more: seq<Action>)
    requires var s := Exec(run);
      && s.stage == Idle && id in s.schedules && !s.schedules[id].fields.enabled && s.schedules[id].next.Some?
    ensures var s, t := Exec(run), Exec(more);
      && run <= more && t.stage == Idle && t.clock == s.clock
      && t.schedules == map[id := Schedule(FIXED, s.schedules[id].next)]
      && t.log == s.log + [Reopened(id, s.schedules[id].next.value)]
  {
    var s := Exec(run);
    var alone := DeleteOthers(run, s.schedules.Keys - {id});
    more := alone + [Save(id, FIXED)];
    assert more[..|alone|] == alone;
    assert FIXED.scopes != [];
  }

  lemma UnreadableIsRetaken(run: seq<Action>) returns (more: seq<Action>)
    requires var s := Exec(run);
      && s.stage.Producing? && !s.stage.fields.timeReadable
      && s.stage.due.id in s.schedules && s.schedules[s.stage.due.id].next == Some(s.stage.due.slot)
    ensures RetakesUninterrupted(run, more, Exec(run).stage.due)
  {
    var s, due := Exec(run), Exec(run).stage.due;
    TakenWasDueWhenListed(run);
    var stopped := DisablesAndStops(run);
    var saved := SavesAlone(stopped, due.id);
    var listed := [Due(due.id, due.slot, FIXED.scopes)];
    AloneIsListed(Exec(saved), due.id, due.slot);
    more := AStandingSlotIsTaken(saved, s.clock, listed, 0);
    var log := Exec(more).log;
    assert log == s.log + [Disabled(due.id), Reopened(due.id, due.slot), Inserted(due.id, due.slot)];
    assert log[|s.log| + 2] == Inserted(due.id, due.slot);
    assert NoneInterrupted(log, |s.log|, |s.log| + 2, due.id);
  }

  lemma AloneIsListed(s: State, id: ScheduleId, slot: Slot)
    requires s.schedules == map[id := Schedule(FIXED, Some(slot))] && slot.at <= s.clock
    ensures IsDueRead(s, s.clock, [Due(id, slot, FIXED.scopes)])
  {
    var listed := [Due(id, slot, FIXED.scopes)];
    assert listed[0].id == id && Names(listed, id);
  }

  /**
   From an attempt under way with its slot standing, that slot can be taken again without an
   interruption if and only if the attempt could not read the time of day of its schedule.
   */
  lemma UninterruptedRetakingIff(run: seq<Action>)
    requires var s := Exec(run);
      && s.stage.Producing?
      && s.stage.due.id in s.schedules && s.schedules[s.stage.due.id].next == Some(s.stage.due.slot)
    ensures (exists more :: RetakesUninterrupted(run, more, Exec(run).stage.due))
      <==> !Exec(run).stage.fields.timeReadable
  {
    if more :| RetakesUninterrupted(run, more, Exec(run).stage.due) {
      ReadableIsNotRetaken(run, more);
    }
    if !Exec(run).stage.fields.timeReadable {
      var more := UnreadableIsRetaken(run);
    }
  }
}
