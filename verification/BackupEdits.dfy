/**
 Edits that meet a tick: which parts a run asks for, and what a rearm writes over, in every run. The
 worker lists what is due, reads each schedule a second time when its turn comes, and rearms it at the
 end; operators may save, move and delete schedules all the while.
 */
module BackupEdits {
  import opened Options
  import opened BackupSchedules
  import opened BackupAccounting

  // ---- the tick that is on

  /** The action that the current list came from. */
  predicate ListsDue(s: State, a: Action) {
    a.ByWorker? && s.stage == Idle && a.move.List? && IsDueRead(s, a.move.now, a.move.due)
  }

  /** The state the list was read in. */
  function ListedIn(run: seq<Action>): State {
    if run == [] then Start()
    else if ListsDue(Exec(run[..|run| - 1]), run[|run| - 1]) then Exec(run[..|run| - 1])
    else ListedIn(run[..|run| - 1])
  }

  /** What happened since. */
  function SinceListed(run: seq<Action>): seq<Action> {
    if run == [] then []
    else if ListsDue(Exec(run[..|run| - 1]), run[|run| - 1]) then []
    else SinceListed(run[..|run| - 1]) + [run[|run| - 1]]
  }

  /** What happened from the list up to the second read of the schedule that is taken. */
  function UpToReread(run: seq<Action>): seq<Action> {
    if run == [] then []
    else if Exec(run[..|run| - 1]).stage.Reading? && Exec(run).stage.Inserting? then SinceListed(run[..|run| - 1])
    else UpToReread(run[..|run| - 1])
  }

  /** The last fields saved for a schedule. */
  function LastSaved(acts: seq<Action>, id: ScheduleId): Option<Fields> {
    if acts == [] then None
    else if Stores(acts[|acts| - 1], id).Some? then Stores(acts[|acts| - 1], id)
    else LastSaved(acts[..|acts| - 1], id)
  }

  /** Whether an operator wrote the schedule's next run, or removed the schedule. */
  predicate Rewritten(acts: seq<Action>, id: ScheduleId) {
    exists k :: 0 <= k < |acts| && (acts[k].SaveSlot? || acts[k].Delete?) && acts[k].id == id
  }

  /** The parts a schedule has after these edits, when it had `before` when it was listed. */
  function ScopesAfter(acts: seq<Action>, id: ScheduleId, before: seq<string>): seq<string> {
    if LastSaved(acts, id).Some? then LastSaved(acts, id).value.scopes else before
  }

  lemma OneActMore(acts: seq<Action>, a: Action)
    ensures forall id :: LastSaved(acts + [a], id) == if Stores(a, id).Some? then Stores(a, id) else LastSaved(acts, id)
    ensures forall id :: Rewritten(acts + [a], id) <==> Rewritten(acts, id) || ((a.SaveSlot? || a.Delete?) && a.id == id)
  {
    var longer := acts + [a];
    assert longer[..|acts|] == acts;
    assert forall k :: 0 <= k < |acts| ==> longer[k] == acts[k];
    assert longer[|acts|] == a;
  }

  // ---- what the list and the schedules have to do with each other

  /** The schedules of the list that no rearm has written yet: those that wait, and the one taken. */
  function Pending(stage: Stage): seq<Due> {
    if stage.Idle? then [] else [stage.due] + stage.queue
  }

  /** A schedule of the list was as the list says, and only the edits since have changed it. */
  ghost predicate Follows(s: State, listed: State, acts: seq<Action>, d: Due) {
    && d.id in listed.schedules
    && listed.schedules[d.id].fields.scopes == d.scopes && listed.schedules[d.id].next == Some(d.slot)
    && d.slot.written < s.slots
    && (d.id in s.schedules ==> s.schedules[d.id].fields.scopes == ScopesAfter(acts, d.id, d.scopes))
    && (if Rewritten(acts, d.id) then d.id in s.schedules ==> s.schedules[d.id].next != Some(d.slot)
        else d.id in s.schedules && s.schedules[d.id].next == Some(d.slot))
  }

  /** A deleted schedule comes back only by a save. */
  ghost predicate FollowsAll(s: State, listed: State, acts: seq<Action>) {
    var pending := Pending(s.stage);
    && (forall k :: 0 <= k < |pending| ==> Follows(s, listed, acts, pending[k]))
    && (forall i, k :: 0 <= i < k < |pending| ==> pending[i].id != pending[k].id)
  }

  // ---- what each step does to it

  /** An operator's action, seen from one schedule of the list. */
  lemma EditFollows(s: State, listed: State, acts: seq<Action>, a: Action, d: Due)
    requires !a.ByWorker? && Follows(s, listed, acts, d)
    ensures Follows(Apply(s, a), listed, acts + [a], d)
  {
    OneActMore(acts, a);
  }

  lemma EditFollowsAll(s: State, listed: State, acts: seq<Action>, a: Action)
    requires !a.ByWorker? && FollowsAll(s, listed, acts)
    ensures FollowsAll(Apply(s, a), listed, acts + [a])
  {
    var pending := Pending(s.stage);
    assert Apply(s, a).stage == s.stage;
    forall k | 0 <= k < |pending|
      ensures Follows(Apply(s, a), listed, acts + [a], pending[k])
    {
      EditFollows(s, listed, acts, a, pending[k]);
    }
  }

  /** The worker's statements touch the schedule it has taken and no other. */
  lemma WorkerTouchesItsOwn(s: State, move: Move)
    ensures var t := WorkerStep(s, move);
      && s.slots <= t.slots
      && forall id :: (s.stage.Idle? || id != s.stage.due.id) ==>
           (id in t.schedules <==> id in s.schedules) && (id in s.schedules ==> t.schedules[id] == s.schedules[id])
  {
  }

  /** While the worker stays on a schedule it has not written to it. */
  lemma StayingTouchesNothing(s: State, move: Move)
    requires !s.stage.Idle? && !WorkerStep(s, move).stage.Idle?
    requires WorkerStep(s, move).stage != Next(s.stage.queue)
    ensures WorkerStep(s, move).schedules == s.schedules
  {
  }

  lemma WorkerActFollows(s: State, t: State, listed: State, acts: seq<Action>, a: Action, d: Due)
    requires a.ByWorker? && Follows(s, listed, acts, d) && s.slots <= t.slots
    requires d.id in t.schedules <==> d.id in s.schedules
    requires d.id in s.schedules ==> t.schedules[d.id] == s.schedules[d.id]
    ensures Follows(t, listed, acts + [a], d)
  {
    OneActMore(acts, a);
  }

  lemma WorkerFollowsAll(s: State, listed: State, acts: seq<Action>, move: Move)
    requires FollowsAll(s, listed, acts) && !s.stage.Idle?
    ensures FollowsAll(WorkerStep(s, move), listed, acts + [ByWorker(move)])
  {
    var t, pending := WorkerStep(s, move), Pending(s.stage);
    StaysOrMovesOn(s, move);
    WorkerTouchesItsOwn(s, move);
    if t.stage == Next(s.stage.queue) {
      assert Pending(t.stage) == pending[1..];
      forall k | 1 <= k < |pending|
        ensures Follows(t, listed, acts + [ByWorker(move)], pending[k])
      {
        assert pending[0].id != pending[k].id;
        WorkerActFollows(s, t, listed, acts, ByWorker(move), pending[k]);
      }
    } else if !t.stage.Idle? {
      assert Pending(t.stage) == pending;
      StayingTouchesNothing(s, move);
      forall k | 0 <= k < |pending|
        ensures Follows(t, listed, acts + [ByWorker(move)], pending[k])
      {
        WorkerActFollows(s, t, listed, acts, ByWorker(move), pending[k]);
      }
    }
  }

  /** A list that was just read says what the schedules are. */
  lemma ListFollows(s: State, now: int, due: seq<Due>)
    requires IsDueRead(s, now, due) && SlotsOk(s)
    ensures FollowsAll(s.(stage := Next(due)), s, [])
  {
    assert Pending(Next(due)) == due;
    forall k | 0 <= k < |due|
      ensures Follows(s.(stage := Next(due)), s, [], due[k])
    {
      assert IsDue(s, due[k].id, now);
    }
  }

  lemma {:induction false} TheTickFollows(run: seq<Action>)
    ensures FollowsAll(Exec(run), ListedIn(run), SinceListed(run))
  {
    if run != [] {
      var before, a := run[..|run| - 1], run[|run| - 1];
      TheTickFollows(before);
      var s := Exec(before);
      if ListsDue(s, a) {
        EveryRunKeepsInv(before);
        ListFollows(s, a.move.now, a.move.due);
      } else if !a.ByWorker? {
        EditFollowsAll(s, ListedIn(before), SinceListed(before), a);
      } else if !s.stage.Idle? {
        WorkerFollowsAll(s, ListedIn(before), SinceListed(before), a.move);
      } else {
        assert Apply(s, a) == s;
      }
    }
  }

  // ---- the parts of a run

  /** What the second read found is what the list said, changed by the edits in between. */
  ghost predicate RereadOk(s: State, acts: seq<Action>) {
    s.stage.Inserting? || s.stage.Producing? ==>
      s.stage.fields.scopes == ScopesAfter(acts, s.stage.due.id, s.stage.due.scopes)
  }

  lemma RereadStays(s: State, a: Action, acts: seq<Action>)
    requires RereadOk(s, acts) && !(s.stage.Reading? && Apply(s, a).stage.Inserting?)
    ensures RereadOk(Apply(s, a), acts)
  {
    if a.ByWorker? && !s.stage.Idle? {
      FieldsAreReadOnce(s, a.move);
    }
  }

  /** Fields come from the second read and stay until the schedule is settled. */
  lemma FieldsAreReadOnce(s: State, move: Move)
    requires !s.stage.Idle?
    ensures var t := WorkerStep(s, move);
      t.stage.Inserting? || t.stage.Producing? ==>
        || (s.stage.Reading? && t.stage.Inserting?)
        || ((s.stage.Inserting? || s.stage.Producing?) && t.stage.due == s.stage.due && t.stage.fields == s.stage.fields)
  {
  }

  lemma RereadIsNow(s: State, a: Action)
    requires s.stage.Reading? && Apply(s, a).stage.Inserting?
    ensures var t := Apply(s, a);
      && t.stage.due == s.stage.due && t.stage.due.id in s.schedules
      && t.stage.fields == s.schedules[t.stage.due.id].fields
  {
  }

  lemma {:induction false} TheRereadFollows(run: seq<Action>)
    ensures RereadOk(Exec(run), UpToReread(run))
  {
    if run != [] {
      var before, a := run[..|run| - 1], run[|run| - 1];
      TheRereadFollows(before);
      var s := Exec(before);
      if s.stage.Reading? && Apply(s, a).stage.Inserting? {
        TheTickFollows(before);
        RereadIsNow(s, a);
        assert Pending(s.stage)[0] == s.stage.due;
      } else {
        RereadStays(s, a, UpToReread(before));
      }
    }
  }

  /** The table lets no schedule name no parts, so neither does what the worker has read of one. */
  ghost predicate PartsAreNamed(s: State) {
    && (forall id :: id in s.schedules ==> s.schedules[id].fields.scopes != [])
    && (forall k :: 0 <= k < |Pending(s.stage)| ==> Pending(s.stage)[k].scopes != [])
    && (s.stage.Inserting? || s.stage.Producing? ==> s.stage.fields.scopes != [])
  }

  lemma WorkerKeepsPartsNamed(s: State, move: Move)
    requires PartsAreNamed(s)
    ensures PartsAreNamed(WorkerStep(s, move))
  {
    var t := WorkerStep(s, move);
    if s.stage.Idle? {
      if move.List? && IsDueRead(s, move.now, move.due) {
        assert Pending(Next(move.due)) == move.due;
        assert forall k :: 0 <= k < |move.due| ==> IsDue(s, move.due[k].id, move.now);
      }
    } else {
      StaysOrMovesOn(s, move);
      FieldsAreReadOnce(s, move);
      WorkerKeepsScopes(s, move);
      if t.stage == Next(s.stage.queue) {
        assert Pending(t.stage) == Pending(s.stage)[1..];
        assert !t.stage.Inserting? && !t.stage.Producing?;
      } else if !t.stage.Idle? {
        assert Pending(t.stage) == Pending(s.stage);
      }
    }
  }

  lemma WorkerKeepsScopes(s: State, move: Move)
    ensures var t := WorkerStep(s, move);
      forall id :: id in t.schedules ==> id in s.schedules && t.schedules[id].fields.scopes == s.schedules[id].fields.scopes
    ensures var t := WorkerStep(s, move);
      s.stage.Reading? && t.stage.Inserting? ==>
        t.stage.due.id in s.schedules && t.stage.fields == s.schedules[t.stage.due.id].fields
  {
  }

  lemma {:induction false} EveryRunNamesParts(run: seq<Action>)
    ensures PartsAreNamed(Exec(run))
  {
    if run != [] {
      EveryRunNamesParts(run[..|run| - 1]);
      if run[|run| - 1].ByWorker? {
        WorkerKeepsPartsNamed(Exec(run[..|run| - 1]), run[|run| - 1].move);
      }
    }
  }

  /**
   In every run, a backup row the worker writes asks for the parts that the schedule had at its second
   read if and only if the last save since the list was read, if there was one, left the parts as the
   list had them. The refusal of a run without parts and the fallback to all of them are never taken.
   */
  lemma RowAsksForTheSchedulesPartsIff(run: seq<Action>, move: Move)
    requires |WorkerStep(Exec(run), move).rows| > |Exec(run).rows|
    ensures var s, t := Exec(run), WorkerStep(Exec(run), move);
      && s.stage.Inserting? && |t.rows| == |s.rows| + 1
      && var row, due, acts := t.rows[|s.rows|], s.stage.due, UpToReread(run);
      && row.id == due.id
      && row.scopes == due.scopes != [] && s.stage.fields.scopes == ScopesAfter(acts, due.id, due.scopes) != []
      && (row.scopes == s.stage.fields.scopes <==>
            LastSaved(acts, due.id) == None || LastSaved(acts, due.id).value.scopes == due.scopes)
  {
    EveryRunNamesParts(run);
    assert Pending(Exec(run).stage)[0] == Exec(run).stage.due by {
      OnlyInsertsAddRows(Exec(run), move);
    }
    TheRereadFollows(run);
    OnlyInsertsAddRows(Exec(run), move);
  }

  lemma OnlyInsertsAddRows(s: State, move: Move)
    requires |WorkerStep(s, move).rows| > |s.rows|
    ensures var t := WorkerStep(s, move);
      && s.stage.Inserting? && !Refused(s.stage.due, s.stage.fields)
      && t.rows == s.rows + [Row(s.stage.due.id, if s.stage.fields.scopes == [] then PARTS else s.stage.due.scopes)]
  {
  }

  // ---- what a rearm writes over

  /**
   In every run, when a rearm is about to write, the next run that stands is the one that was listed
   and taken if and only if no operator wrote the schedule's next run, or removed the schedule, since
   the list was read. Otherwise it overwrites that edit, or a next run that is not there.
   */
  lemma RearmReplacesTheListedSlotIff(run: seq<Action>)
    requires Exec(run).stage.Rearming?
    ensures var s := Exec(run);
      var due := s.stage.due;
      && (due.id in s.schedules && s.schedules[due.id].next == Some(due.slot) <==> !Rewritten(SinceListed(run), due.id))
      && due.id in ListedIn(run).schedules && ListedIn(run).schedules[due.id].next == Some(due.slot)
  {
    TheTickFollows(run);
    assert Pending(Exec(run).stage)[0] == Exec(run).stage.due;
  }

  // ---- running ahead of the next run

  /** A schedule's next run as the edits leave it: whether it is there, and when it is due. */
  datatype Standing = Gone | There(next: Option<int>)

  function Edited(before: Standing, a: Action, id: ScheduleId): Standing {
    if Stores(a, id).Some? then (if before.Gone? then There(None) else before)
    else if a.SaveSlot? && a.id == id then (if before.Gone? then Gone else There(a.at))
    else if a.Delete? && a.id == id then Gone
    else before
  }

  function AfterEdits(acts: seq<Action>, id: ScheduleId, before: Standing): Standing {
    if acts == [] then before
    else Edited(AfterEdits(acts[..|acts| - 1], id, before), acts[|acts| - 1], id)
  }

  /** How a schedule stands in the table. */
  function StandingOf(s: State, id: ScheduleId): Standing {
    if id !in s.schedules then Gone
    else if s.schedules[id].next.None? then There(None)
    else There(Some(s.schedules[id].next.value.at))
  }

  /** Every schedule of the list stands as it was listed, changed by the edits since. */
  ghost predicate StandsAsEdited(s: State, acts: seq<Action>) {
    var pending := Pending(s.stage);
    && (forall k :: 0 <= k < |pending| ==>
          StandingOf(s, pending[k].id) == AfterEdits(acts, pending[k].id, There(Some(pending[k].slot.at))))
    && (forall i, k :: 0 <= i < k < |pending| ==> pending[i].id != pending[k].id)
  }

  lemma AfterOneMore(acts: seq<Action>, a: Action)
    ensures forall id, before :: AfterEdits(acts + [a], id, before) == Edited(AfterEdits(acts, id, before), a, id)
  {
    assert (acts + [a])[..|acts|] == acts;
  }

  lemma EditStands(s: State, acts: seq<Action>, a: Action)
    requires !a.ByWorker? && StandsAsEdited(s, acts)
    ensures StandsAsEdited(Apply(s, a), acts + [a])
  {
    AfterOneMore(acts, a);
    assert Apply(s, a).stage == s.stage;
    forall id
      ensures StandingOf(Apply(s, a), id) == Edited(StandingOf(s, id), a, id)
    {
      EditOfOne(s, a, id);
    }
  }

  lemma EditOfOne(s: State, a: Action, id: ScheduleId)
    requires !a.ByWorker?
    ensures StandingOf(Apply(s, a), id) == Edited(StandingOf(s, id), a, id)
  {
  }

  lemma WorkerStands(s: State, acts: seq<Action>, move: Move)
    requires StandsAsEdited(s, acts) && !s.stage.Idle?
    ensures StandsAsEdited(WorkerStep(s, move), acts + [ByWorker(move)])
  {
    var t, pending := WorkerStep(s, move), Pending(s.stage);
    AfterOneMore(acts, ByWorker(move));
    StaysOrMovesOn(s, move);
    if t.stage == Next(s.stage.queue) {
      assert Pending(t.stage) == pending[1..];
      forall k | 1 <= k < |pending|
        ensures StandingOf(t, pending[k].id) == StandingOf(s, pending[k].id)
      {
        assert pending[0].id != pending[k].id;
        OthersStand(s, move, pending[k].id);
      }
    } else if !t.stage.Idle? {
      assert Pending(t.stage) == pending;
      StayingTouchesNothing(s, move);
      assert forall id :: StandingOf(t, id) == StandingOf(s, id);
    }
  }

  lemma OthersStand(s: State, move: Move, id: ScheduleId)
    requires !s.stage.Idle? && id != s.stage.due.id
    ensures StandingOf(WorkerStep(s, move), id) == StandingOf(s, id)
  {
    WorkerTouchesItsOwn(s, move);
  }

  lemma ListStands(s: State, now: int, due: seq<Due>)
    requires IsDueRead(s, now, due)
    ensures StandsAsEdited(s.(stage := Next(due)), [])
  {
    assert Pending(Next(due)) == due;
    assert forall k :: 0 <= k < |due| ==> IsDue(s, due[k].id, now);
  }

  lemma {:induction false} TheTickStands(run: seq<Action>)
    ensures StandsAsEdited(Exec(run), SinceListed(run))
  {
    if run != [] {
      var before, a := run[..|run| - 1], run[|run| - 1];
      TheTickStands(before);
      var s := Exec(before);
      if ListsDue(s, a) {
        ListStands(s, a.move.now, a.move.due);
      } else if !a.ByWorker? {
        EditStands(s, SinceListed(before), a);
      } else if !s.stage.Idle? {
        WorkerStands(s, SinceListed(before), a.move);
      } else {
        assert Apply(s, a) == s;
      }
    }
  }

  /**
   In every run, a schedule is taken ahead of its own next run if and only if the edits since the list
   was read leave it with a next run after the clock: the second read looks at whether the schedule is
   enabled, not at when it is due.
   */
  lemma TakenEarlyIff(run: seq<Action>)
    requires Exec(run).stage.Inserting?
    ensures var s := Exec(run);
      var due := s.stage.due;
      var left := AfterEdits(SinceListed(run), due.id, There(Some(due.slot.at)));
      && due.slot.at <= s.clock
      && ((due.id in s.schedules && s.schedules[due.id].next.Some? && s.schedules[due.id].next.value.at > s.clock)
          <==> left.There? && left.next.Some? && left.next.value > s.clock)
  {
    TheTickStands(run);
    TakenWasDueWhenListed(run);
    assert Pending(Exec(run).stage)[0] == Exec(run).stage.due;
  }
}
