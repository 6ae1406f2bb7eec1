/** Runs of the backup schedule worker that end otherwise than its comments say. */
module BackupWitness {
  import opened Options
  import opened BackupSchedules

  const ID: ScheduleId := 1

  lemma OneMore(run: seq<Action>, a: Action)
    ensures Exec(run + [a]) == Apply(Exec(run), a)
  {
    assert (run + [a])[..|run|] == run;
  }

  /** The state with one schedule, nothing else in it. */
  function Only(schedule: Schedule, clock: int, slots: nat, stage: Stage, rows: seq<Row>, log: seq<Entry>): State {
    State(map[ID := schedule], clock, slots, stage, rows, log)
  }

  /** The one schedule is due, and is listed and read. */
  lemma ListsAndReads(s: State, schedule: Schedule, scopes: seq<string>)
    requires s == Only(schedule, s.clock, s.slots, Idle, s.rows, s.log)
    requires schedule.fields.enabled && schedule.fields.scopes == scopes
    requires schedule.next.Some? && schedule.next.value.at <= s.clock
    ensures var due := Due(ID, schedule.next.value, scopes);
      && Apply(s, ByWorker(List(s.clock, [due]))) == s.(stage := Reading(due, []))
      && Apply(s.(stage := Reading(due, [])), ByWorker(Proceed)) == s.(stage := Inserting(due, schedule.fields, []))
  {
    var due := Due(ID, schedule.next.value, scopes);
    assert Names([due], ID) by {
      assert [due][0].id == ID;
    }
    assert IsDueRead(s, s.clock, [due]);
    assert [due][1..] == [];
  }

  /** The schedule is saved with a next run that is due, and the worker lists it and reads it. */
  lemma TakesItUp(save: Action, fields: Fields) returns (run: seq<Action>)
    requires Stores(save, ID) == Some(fields) && fields.enabled
    ensures Exec(run) == Only(Schedule(fields, Some(Slot(0, 0))), 0, 1, Inserting(Due(ID, Slot(0, 0), fields.scopes), fields, []), [], [])
  {
    var before := Listed(save, fields);
    OneMore(before, ByWorker(Proceed));
    run := before + [ByWorker(Proceed)];
  }

  /** Up to the list: the worker is about to read the schedule. */
  lemma Listed(save: Action, fields: Fields) returns (run: seq<Action>)
    requires Stores(save, ID) == Some(fields) && fields.enabled
    ensures Exec(run) == Only(Schedule(fields, Some(Slot(0, 0))), 0, 1, Reading(Due(ID, Slot(0, 0), fields.scopes), []), [], [])
    ensures |run| == 3
  {
    OneMore([], save);
    OneMore([save], SaveSlot(ID, Some(0)));
    run := [save, SaveSlot(ID, Some(0))];
    assert [] + [save] == [save] && [save] + [SaveSlot(ID, Some(0))] == run;
    var s := Only(Schedule(fields, Some(Slot(0, 0))), 0, 1, Idle, [], []);
    assert Exec(run) == s;
    ListsAndReads(s, Schedule(fields, Some(Slot(0, 0))), fields.scopes);
    var list := ByWorker(List(0, [Due(ID, Slot(0, 0), fields.scopes)]));
    OneMore(run, list);
    run := run + [list];
  }

  const BROKEN := Fields(true, ["media"], false, true)
  const FIXED := Fields(true, ["media"], true, true)

  /**
   A row whose time of day cannot be read. No route stores one; here it is written past them. It is run
   and disabled, and once an operator saves it with a time it is listed again and run again.
   */
  lemma ADisabledSlotIsTakenAgain() returns (run: seq<Action>)
    ensures Exec(run).log == [Inserted(ID, Slot(0, 0)), Disabled(ID), Reopened(ID, Slot(0, 0)), Inserted(ID, Slot(0, 0))]
  {
    var slot := Slot(0, 0);
    var due := Due(ID, slot, ["media"]);
    var shut := RunsAndDisables();
    OneMore(shut, Save(ID, FIXED));
    run := shut + [Save(ID, FIXED)];
    var t := Exec(run);
    assert t == Only(Schedule(FIXED, Some(slot)), 0, 1, Idle, t.rows, [Inserted(ID, slot), Disabled(ID), Reopened(ID, slot)]);
    ListsAndReads(t, Schedule(FIXED, Some(slot)), ["media"]);
    OneMore(run, ByWorker(List(0, [due])));
    run := run + [ByWorker(List(0, [due]))];
    OneMore(run, ByWorker(Proceed));
    run := run + [ByWorker(Proceed)];
    OneMore(run, ByWorker(Proceed));
    run := run + [ByWorker(Proceed)];
  }

  lemma RunsAndDisables() returns (run: seq<Action>)
    ensures var slot, s := Slot(0, 0), Exec(run);
      s == Only(Schedule(BROKEN.(enabled := false), Some(slot)), 0, 1, Idle, s.rows, [Inserted(ID, slot), Disabled(ID)])
  {
    var due := Due(ID, Slot(0, 0), ["media"]);
    run := TakesItUp(HandWrite(ID, BROKEN), BROKEN);
    OneMore(run, ByWorker(Proceed));
    run := run + [ByWorker(Proceed)];
    assert Exec(run).stage == Producing(due, BROKEN, []);
    OneMore(run, ByWorker(Proceed));
    run := run + [ByWorker(Proceed)];
    assert Exec(run).stage == Disabling(due, []);
    OneMore(run, ByWorker(Proceed));
    run := run + [ByWorker(Proceed)];
  }

  /**
   An edit between the list and the second read. The operator moves the schedule to `later` and to
   other parts; the worker runs it at once, with the parts it had before, and then writes the next
   run of the schedule over whatever an edit during the run has put there.
   */
  lemma AnEditDuringATickIsOverrun(later: int, latest: int, next: int) returns (run: seq<Action>)
    requires later > 0 && next > 0
    ensures var s := Exec(run);
      && s.clock == 0
      && s.rows == [Row(ID, ["media"])]
      && s.log == [Inserted(ID, Slot(0, 0)), Rearmed(ID, 0, next)]
      && s.schedules == map[ID := Schedule(EDITED, Some(Slot(next, 3)))]
      && |run| > 5 && run[|run| - 2] == SaveSlot(ID, Some(latest)) && run[4] == SaveSlot(ID, Some(later))
  {
    var due := Due(ID, Slot(0, 0), ["media"]);
    run := RunsWhatWasMoved(later);
    OneMore(run, ByWorker(NextRun(next)));
    run := run + [ByWorker(NextRun(next))];
    OneMore(run, SaveSlot(ID, Some(latest)));
    run := run + [SaveSlot(ID, Some(latest))];
    assert Exec(run) == Only(Schedule(EDITED, Some(Slot(latest, 2))), 0, 3, Rearming(due, 0, next, []),
                             [Row(ID, ["media"])], [Inserted(ID, Slot(0, 0))]);
    OneMore(run, ByWorker(Proceed));
    run := run + [ByWorker(Proceed)];
  }

  const EDITED := Fields(true, ["database"], true, true)

  lemma RunsWhatWasMoved(later: int) returns (run: seq<Action>)
    ensures Exec(run) == Only(Schedule(EDITED, Some(Slot(later, 1))), 0, 2,
      Producing(Due(ID, Slot(0, 0), ["media"]), EDITED, []), [Row(ID, ["media"])], [Inserted(ID, Slot(0, 0))])
    ensures |run| > 4 && run[4] == SaveSlot(ID, Some(later))
  {
    var due := Due(ID, Slot(0, 0), ["media"]);
    run := Listed(Save(ID, FIXED), FIXED);
    OneMore(run, Save(ID, EDITED));
    run := run + [Save(ID, EDITED)];
    OneMore(run, SaveSlot(ID, Some(later)));
    run := run + [SaveSlot(ID, Some(later))];
    assert Exec(run) == Only(Schedule(EDITED, Some(Slot(later, 1))), 0, 2, Reading(due, []), [], []);
    OneMore(run, ByWorker(Proceed));
    run := run + [ByWorker(Proceed)];
    OneMore(run, ByWorker(Proceed));
    run := run + [ByWorker(Proceed)];
  }
}
