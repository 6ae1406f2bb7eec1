/**
 The schedule worker's code against the database it shares with the operators: between any two of
 its statements schedules may be saved and deleted and the clock goes on, and each statement may
 fail, with or without effect.
 */
module BackupRunner {
  import opened Options
  import opened BackupSchedules
  import opened BackupAccounting
  import opened BackupQueue

  /** `Ok(Some(id))`, `Ok(None)` and the error of one schedule. */
  datatype Outcome = Ran | Nothing | Failed

  /** Attempts that were completed: rearmed or disabled. */
  function Completed(log: seq<Entry>): nat {
    if log == [] then 0
    else
      var last := log[|log| - 1];
      Completed(log[..|log| - 1]) + if last.Rearmed? || last.Disabled? then 1 else 0
  }

  lemma CompletedAppend(log: seq<Entry>, e: Entry)
    ensures Completed(log + [e]) == Completed(log) + if e.Rearmed? || e.Disabled? then 1 else 0
  {
    assert (log + [e])[..|log|] == log;
  }

  /** Operators complete no attempt and do not move the worker. */
  lemma OthersCompleteNothing(s: State, a: Action)
    requires !a.ByWorker?
    ensures Apply(s, a).stage == s.stage && Completed(Apply(s, a).log) == Completed(s.log)
    ensures s.log <= Apply(s, a).log && s.clock <= Apply(s, a).clock
  {
    if (a.Save? || a.HandWrite?) && a.id in s.schedules && s.schedules[a.id].next.Some? {
      CompletedAppend(s.log, Reopened(a.id, s.schedules[a.id].next.value));
    }
  }

  lemma GivingUpCompletesNothing(s: State, id: ScheduleId, queue: seq<Due>)
    ensures Completed(GiveUp(s, id, queue).log) == Completed(s.log) && s.log <= GiveUp(s, id, queue).log
  {
    CompletedAppend(s.log, Interrupted(id));
  }

  /** The insert: the row is written, or nothing is, and an error says neither. */
  lemma InsertSteps(s: State, due: Due, fields: Fields, queue: seq<Due>, committed: bool)
    requires s.stage == Inserting(due, fields, queue)
    ensures var t := Apply(s, ByWorker(Fault(committed)));
      t.stage == Next(queue) && Completed(t.log) == Completed(s.log)
    ensures var t := Apply(s, ByWorker(Proceed));
      && Completed(t.log) == Completed(s.log) && s.log <= t.log
      && t.stage == (if Refused(due, fields) then Next(queue) else Producing(due, fields, queue))
      && (!Refused(due, fields) ==> Took(t.log, |s.log|, due))
  {
    var t := Insert(s, due, fields);
    CompletedAppend(s.log, Inserted(due.id, due.slot));
    GivingUpCompletesNothing(t, due.id, queue);
    assert t.log[|s.log|] == Inserted(due.id, due.slot);
  }

  /** The last statement: it completes the attempt whenever it takes effect. */
  lemma SettlingSteps(s: State, queue: seq<Due>, move: Move)
    requires (s.stage.Rearming? || s.stage.Disabling?) && s.stage.queue == queue
    requires move.Proceed? || move.Fault?
    ensures var t := Apply(s, ByWorker(move));
      && t.stage == Next(queue) && s.log <= t.log
      && Completed(t.log) == Completed(s.log) + if move.Proceed? || move.committed then 1 else 0
  {
    GivingUpCompletesNothing(s, s.stage.due.id, queue);
    if s.stage.Rearming? {
      CompletedAppend(s.log, Rearmed(s.stage.due.id, s.stage.clock, s.stage.at));
    } else {
      CompletedAppend(s.log, Disabled(s.stage.due.id));
    }
  }

  /** The slot was taken after the log had `since` entries. */
  ghost predicate Took(log: seq<Entry>, since: nat, due: Due) {
    exists k :: since <= k < |log| && log[k] == Inserted(due.id, due.slot)
  }

  lemma TookStays(log: seq<Entry>, longer: seq<Entry>, since: nat, due: Due)
    requires log <= longer && Took(log, since, due)
    ensures Took(longer, since, due)
  {
    var k :| since <= k < |log| && log[k] == Inserted(due.id, due.slot);
    assert longer[k] == log[k];
  }

  class Runner {
    var s: State
    ghost var run: seq<Action>

    ghost predicate Valid()
      reads this
    {
      s == Exec(run)
    }

    constructor ()
      ensures Valid() && s == Start()
    {
      s := Start();
      run := [];
    }

    method Act(a: Action)
      requires Valid()
      modifies this
      ensures Valid() && s == Apply(old(s), a) && run == old(run) + [a]
    {
      assert (run + [a])[..|run|] == run;
      s := Apply(s, a);
      run := run + [a];
    }

    /** Anything operators and the clock may do before the worker's next statement. */
    method Others()
      requires Valid()
      modifies this
      ensures Valid() && s.stage == old(s).stage && Completed(s.log) == Completed(old(s).log)
      ensures old(s).log <= s.log && old(run) <= run && old(s).clock <= s.clock
    {
      var more: nat := *;
      while more > 0
        invariant Valid() && s.stage == old(s).stage && Completed(s.log) == Completed(old(s).log)
        invariant old(s).log <= s.log && old(run) <= run && old(s).clock <= s.clock
      {
        var a: Action := *;
        if !a.ByWorker? {
          OthersCompleteNothing(s, a);
          Act(a);
        }
        more := more - 1;
      }
    }

    /** The schedules due by a clock read before the query, in its order, or nothing when it fails. */
    method NextDue() returns (due: Option<seq<Due>>)
      requires Valid() && s.stage == Idle
      modifies this
      ensures Valid() && Completed(s.log) == Completed(old(s).log)
      ensures due.None? ==> s.stage == Idle
      ensures due.Some? ==> s.stage == Next(due.value) && |due.value| <= DUE_LIMIT
      ensures old(run) <= run
    {
      Others();
      var now := s.clock;
      Others();
      var fails: bool := *;
      if fails {
        return None;
      }
      DueReadExists(s, now);
      var answer :| IsDueRead(s, now, answer);
      Act(ByWorker(List(now, answer)));
      due := Some(answer);
    }

    /** One attempt: every `?` of the code is a branch that may leave. */
    method RunOne(due: Due, ghost queue: seq<Due>) returns (outcome: Outcome)
      requires Valid() && s.stage == Reading(due, queue)
      modifies this
      ensures Valid() && s.stage == Next(queue) && old(run) <= run
      ensures outcome == Ran ==> Completed(s.log) == Completed(old(s).log) + 1 && Took(s.log, |old(s).log|, due)
      ensures outcome == Nothing ==> Completed(s.log) == Completed(old(s).log)
      ensures outcome == Failed ==> Completed(old(s).log) <= Completed(s.log) <= Completed(old(s).log) + 1
    {
      var reread, fields := Reread(due, queue);
      if reread != Ran {
        return reread;
      }
      var inserted := InsertRow(due, fields, queue);
      if !inserted {
        return Failed;
      }
      ghost var taken := s;
      var produced := Produce(due, fields, queue);
      if !produced {
        return Failed;
      }
      var rearmed := Rearm(due, fields, queue);
      TookStays(taken.log, s.log, |old(s).log|, due);
      outcome := if rearmed then Ran else Failed;
    }

    /** The schedule as it stands now: gone or disabled, and there is nothing to do. */
    method Reread(due: Due, ghost queue: seq<Due>) returns (outcome: Outcome, fields: Fields)
      requires Valid() && s.stage == Reading(due, queue)
      modifies this
      ensures Valid() && s.stage == (if outcome == Ran then Inserting(due, fields, queue) else Next(queue))
      ensures Completed(s.log) == Completed(old(s).log) && old(s).log <= s.log && old(run) <= run
    {
      Others();
      fields := Fields(false, [], false, false);
      var fault: bool := *;
      if fault {
        Act(ByWorker(Fault(false)));
        return Failed, fields;
      }
      if due.id !in s.schedules || !s.schedules[due.id].fields.enabled {
        Act(ByWorker(Proceed));
        return Nothing, fields;
      }
      fields := s.schedules[due.id].fields;
      Act(ByWorker(Proceed));
      outcome := Ran;
    }

    method InsertRow(due: Due, fields: Fields, ghost queue: seq<Due>) returns (ok: bool)
      requires Valid() && s.stage == Inserting(due, fields, queue)
      modifies this
      ensures Valid() && s.stage == (if ok then Producing(due, fields, queue) else Next(queue))
      ensures ok ==> Took(s.log, |old(s).log|, due)
      ensures Completed(s.log) == Completed(old(s).log) && old(run) <= run
    {
      Others();
      ghost var before := s;
      var fault: bool, committed: bool := *, *;
      InsertSteps(s, due, fields, queue, committed);
      if fault {
        Act(ByWorker(Fault(committed)));
        return false;
      }
      Act(ByWorker(Proceed));
      ok := !Refused(due, fields);
    }

    /** The statements of the run itself: its prefix, its start, its parts and its end. */
    method Produce(due: Due, fields: Fields, ghost queue: seq<Due>) returns (ok: bool)
      requires Valid() && s.stage == Producing(due, fields, queue)
      modifies this
      ensures Valid() && s.stage == (if ok then Producing(due, fields, queue) else Next(queue))
      ensures Completed(s.log) == Completed(old(s).log) && old(s).log <= s.log && old(run) <= run
    {
      Others();
      ok := *;
      if !ok {
        GivingUpCompletesNothing(s, due.id, queue);
        Act(ByWorker(Fault(false)));
      }
    }

    /** The next run: from the cadence, or the horizon when it finds none; or the schedule is disabled. */
    method Rearm(due: Due, fields: Fields, ghost queue: seq<Due>) returns (ok: bool)
      requires Valid() && s.stage == Producing(due, fields, queue)
      modifies this
      ensures Valid() && s.stage == Next(queue) && old(s).log <= s.log && old(run) <= run
      ensures ok ==> Completed(s.log) == Completed(old(s).log) + 1
      ensures Completed(old(s).log) <= Completed(s.log) <= Completed(old(s).log) + 1
    {
      ChooseNext(due, fields, queue);
      Others();
      var committed: bool;
      ok, committed := *, *;
      SettlingSteps(s, queue, if ok then Proceed else Fault(committed));
      Act(ByWorker(if ok then Proceed else Fault(committed)));
    }

    /** From the cadence of the schedule as it was read again, at the clock as it is now. */
    method ChooseNext(due: Due, fields: Fields, ghost queue: seq<Due>)
      requires Valid() && s.stage == Producing(due, fields, queue)
      modifies this
      ensures Valid() && old(s).log <= s.log && Completed(s.log) == Completed(old(s).log) && old(run) <= run
      ensures (s.stage.Rearming? || s.stage.Disabling?) && s.stage.due == due && s.stage.queue == queue
      ensures s.stage.Disabling? <==> !fields.timeReadable
      ensures s.stage.Rearming? && !fields.zoneKnown ==> s.stage.at == s.stage.clock + REARM_HORIZON
    {
      Others();
      if !fields.timeReadable {
        Act(ByWorker(Proceed));
        return;
      }
      var at: int := *;
      if fields.zoneKnown && at > s.clock {
        Act(ByWorker(NextRun(at)));
      } else {
        Act(ByWorker(NoNext));
      }
    }

    /**
     One pass over what is due. The answer counts the attempts the worker saw completed; an error may
     hide one that was.
     */
    method Tick() returns (started: Option<nat>, ghost failed: nat)
      requires Valid() && s.stage == Idle
      modifies this
      ensures Valid() && s.stage == Idle && old(run) <= run
      ensures started.None? ==> Completed(s.log) == Completed(old(s).log)
      ensures started.Some? ==>
        started.value <= Completed(s.log) - Completed(old(s).log) <= started.value + failed
    {
      failed := 0;
      var due := NextDue();
      if due.None? {
        return None, 0;
      }
      var count := 0;
      assert due.value[0..] == due.value;
      for i := 0 to |due.value|
        invariant Valid() && s.stage == Next(due.value[i..]) && old(run) <= run
        invariant count <= Completed(s.log) - Completed(old(s).log) <= count + failed
      {
        assert due.value[i..][0] == due.value[i] && due.value[i..][1..] == due.value[i + 1..];
        var outcome := RunOne(due.value[i], due.value[i + 1..]);
        match outcome {
          case Ran => count := count + 1;
          case Nothing =>
          case Failed => failed := failed + 1;
        }
      }
      started := Some(count);
    }
  }
}
