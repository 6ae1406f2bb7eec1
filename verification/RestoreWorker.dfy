/**
 The worker's code against the database everybody shares. Between any two of its statements every
 other worker, operator and the clock may act; each statement may fail, with or without effect.

 `run` records every action of the platform, so that a valid platform is a reachable state of the
 protocol and everything proved about reachable states holds while this code runs.
 */
module RestoreWorker {
  import opened Options
  import opened RestoreJobs
  import opened RestoreProtocol
  import opened RestoreInvariant
  import Lists

  /** How a call to `run_one` ended: `Ok(())`, or the error a `?` passed on. */
  datatype Outcome = Done | Passed

  class Platform {
    var s: State
    ghost var run: seq<Action>
    const phrase: RunId -> string

    ghost predicate Valid()
      reads this
    {
      s == Exec(Start(phrase), run)
    }

    constructor (phrase: RunId -> string)
      ensures Valid() && this.phrase == phrase && s == Start(phrase)
    {
      this.phrase := phrase;
      s := Start(phrase);
      run := [];
    }

    /** One action, by anybody. */
    method Act(a: Action)
      requires Valid()
      modifies this
      ensures Valid() && s == Apply(old(s), a) && run == old(run) + [a]
    {
      assert (run + [a])[..|run + [a]| - 1] == run;
      s := Apply(s, a);
      run := run + [a];
    }

    /** Anything everybody but `w` may do before the next statement of `w`. */
    method Others(w: WorkerId)
      requires Valid()
      modifies this
      ensures Valid() && Inv(s) && Later(old(s), s)
      ensures StageOf(s, w) == old(StageOf(s, w))
      ensures forall j :: old(j in s.jobs && BusyOn(s, w, j)) ==>
        j in s.jobs && s.jobs[j].trail == old(s.jobs)[j].trail
      ensures old(run) <= run
    {
      EveryRunKeepsInv(phrase, run);
      LaterIsReflexive(s);
      var more: nat := *;
      while more > 0
        invariant Valid() && Inv(s) && Later(old(s), s)
        invariant StageOf(s, w) == old(StageOf(s, w))
        invariant forall j :: old(j in s.jobs && BusyOn(s, w, j)) ==>
          j in s.jobs && s.jobs[j].trail == old(s.jobs)[j].trail
        invariant old(run) <= run
      {
        var a: Action := *;
        if !(a.ByWorker? && a.worker == w) {
          OthersLeaveTheStage(s, a, w);
          if StageOf(s, w).Busy? {
            BusyJobIsOk(s, w);
            OthersLeaveTheTrail(s, a, w, StageOf(s, w).job);
          }
          ghost var before := s;
          ActionKeepsInv(s, a);
          Act(a);
          LaterComposes(old(s), before, s);
        }
        more := more - 1;
      }
    }

    /** A worker in the loop over its queue awaits its claim. */
    method AwaitClaim(w: WorkerId, queue: seq<JobId>, m: Move) returns (before: State)
      requires Valid() && StageOf(s, w) == Serving(queue) && queue != []
      modifies this
      ensures Valid() && queue[0] in before.jobs
      ensures s == ServeStep(before, w, queue, m)
      ensures old(run) <= run
    {
      Others(w);
      StageIsOk(s, w);
      before := s;
      ServingWorkerSteps(s, w, m);
      Act(ByWorker(w, m));
    }

    /** A busy worker awaits one statement: what it finds, and what its step makes of it. */
    method AwaitTask(w: WorkerId, j: JobId, task: Task, queue: seq<JobId>, m: Move) returns (before: State)
      requires Holds(w, j, task, queue) && !m.Crash?
      modifies this
      ensures Valid() && j in before.jobs && before.phrase == phrase
      ensures JobOk(before.jobs[j], before.clock, phrase) && BusyOk(before.jobs[j], w, task, phrase)
      ensures s == BusyStep(before, w, j, task, queue, m)
      ensures old(j in s.jobs) && before.jobs[j].trail == old(s.jobs)[j].trail
      ensures old(run) <= run
    {
      EveryRunKeepsInv(phrase, run);
      BusyJobIsOk(s, w);
      Others(w);
      EveryRunKeepsInv(phrase, run);
      BusyJobIsOk(s, w);
      before := s;
      BusyWorkerSteps(s, w, m);
      Act(ByWorker(w, m));
    }

    /** The database answers, or the connection fails before or after the statement took effect. */
    method Statement() returns (m: Move)
      ensures m.Proceed? || m.Fault?
    {
      var fails, committed := *, *;
      m := if fails then Fault(committed) else Proceed;
    }

    ghost predicate Holds(w: WorkerId, j: JobId, task: Task, queue: seq<JobId>)
      reads this
    {
      Valid() && StageOf(s, w) == Busy(j, task, queue)
    }

    /** The worker has left a job it claimed: ended, or left running when an error was passed on. */
    ghost predicate Left(w: WorkerId, j: JobId, queue: seq<JobId>, outcome: Outcome)
      reads this
    {
      && Valid() && StageOf(s, w) == Serving(queue)
      && j in s.jobs && s.jobs[j].trail != [] && s.jobs[j].trail[0].worker == w
      && (Live(s.jobs[j].row) ==> outcome == Passed && s.jobs[j].orphaned)
    }

    method Claim(w: WorkerId, j: JobId, queue: seq<JobId>) returns (answer: ClaimAnswer)
      requires Valid() && StageOf(s, w) == Serving([j] + queue)
      modifies this
      ensures Valid() && old(run) <= run
      ensures match answer
        case NotClaimed => StageOf(s, w) == Serving(queue)
        case CancelledFirst => Holds(w, j, ClaimAbort, queue)
        case Mine => Holds(w, j, CancelCheck, queue)
    {
      assert ([j] + queue)[0] == j && ([j] + queue)[1..] == queue;
      var m := Statement();
      var before := AwaitClaim(w, [j] + queue, m);
      answer := if m.Fault? || before.jobs[j].row.status != Queued then NotClaimed
                else if before.jobs[j].row.cancelRequested then CancelledFirst
                else Mine;
    }

    /** The abort inside the claim. Its failure is answered as `Unavailable`, and the job is failed. */
    method AbortClaimed(w: WorkerId, j: JobId, queue: seq<JobId>) returns (done: bool)
      requires Holds(w, j, ClaimAbort, queue)
      modifies this
      ensures Valid() && old(run) <= run
      ensures if done then Left(w, j, queue, Done) else Holds(w, j, Refusing, queue)
    {
      var m := Statement();
      var before := AwaitTask(w, j, ClaimAbort, queue, m);
      done := m.Proceed?;
    }

    /** `cancel_was_requested`. */
    method ReadCancel(w: WorkerId, j: JobId, queue: seq<JobId>) returns (asked: Option<bool>)
      requires Holds(w, j, CancelCheck, queue)
      modifies this
      ensures Valid() && old(run) <= run
      ensures match asked
        case None => Left(w, j, queue, Passed)
        case Some(yes) => !yes && Holds(w, j, Planning, queue)
    {
      var m := Statement();
      var before := AwaitTask(w, j, CancelCheck, queue, m);
      asked := if m.Fault? then None else Some(before.jobs[j].row.cancelRequested);
    }

    /** The run is read again and its phrase compared with the one the job carries. */
    method ReadPlan(w: WorkerId, j: JobId, queue: seq<JobId>) returns (matches: Option<bool>)
      requires Holds(w, j, Planning, queue)
      modifies this
      ensures Valid() && old(run) <= run
      ensures match matches
        case None => Left(w, j, queue, Passed)
        case Some(yes) => Holds(w, j, if yes then Pricing else Refusing, queue)
    {
      var m := Statement();
      var before := AwaitTask(w, j, Planning, queue, m);
      matches := if m.Fault? then None
                 else Some(before.jobs[j].row.confirmation == phrase(before.jobs[j].row.run));
    }

    method RebuildPreview(w: WorkerId, j: JobId, queue: seq<JobId>) returns (preview: Preview)
      requires Holds(w, j, Pricing, queue)
      modifies this
      ensures old(run) <= run
      ensures if preview.unpriced || !preview.restorable then Holds(w, j, Refusing, queue)
              else Holds(w, j, SafetyCopy, queue) && j in s.jobs
                   && (OffersMedia(s.jobs[j].trail) <==> preview.mediaAvailable)
    {
      preview := *;
      var before := AwaitTask(w, j, Pricing, queue, PreviewBuilt(preview));
    }

    method TakeSafetyBackup(w: WorkerId, j: JobId, queue: seq<JobId>, media: bool)
      returns (taken: Option<Safety>)
      requires Holds(w, j, SafetyCopy, queue) && j in s.jobs
      requires OffersMedia(s.jobs[j].trail) <==> media
      modifies this
      ensures old(run) <= run
      ensures match taken
        case None => Holds(w, j, Refusing, queue)
        case Some(safety) =>
          Holds(w, j, if !safety.complete then Refusing
                      else if media then OpeningMedia(safety.id) else Finishing(safety.id), queue)
    {
      taken := *;
      var before := AwaitTask(w, j, SafetyCopy, queue, SafetyEnded(taken));
    }

    method ReadIndex(w: WorkerId, j: JobId, queue: seq<JobId>, safety: nat) returns (index: Option<nat>)
      requires Holds(w, j, OpeningMedia(safety), queue)
      modifies this
      ensures old(run) <= run
      ensures match index
        case None => Holds(w, j, Refusing, queue)
        case Some(n) =>
          && Holds(w, j, AfterObject(safety, n), queue) && j in s.jobs
          && Tried(s.jobs[j].trail, true) == 0 && Tried(s.jobs[j].trail, false) == 0
    {
      index := *;
      var before := AwaitTask(w, j, OpeningMedia(safety), queue, IndexRead(index));
      if index != None {
        NothingTriedYet(before.jobs[j].trail);
        OneMoreEvent(before.jobs[j].trail, WriteBegan(w));
      }
    }

    method TryObject(w: WorkerId, j: JobId, queue: seq<JobId>, safety: nat, left: nat) returns (landed: bool)
      requires Holds(w, j, Writing(safety, left), queue) && left > 0 && j in s.jobs
      modifies this
      ensures Holds(w, j, AfterObject(safety, left - 1), queue) && old(run) <= run
      ensures j in s.jobs && s.jobs[j].trail == old(s.jobs)[j].trail + [Put(w, landed)]
    {
      landed := *;
      var before := AwaitTask(w, j, Writing(safety, left), queue, ObjectTried(landed));
    }

    /** `restore_media_part`: the index, and then every object of it, whatever became of the last. */
    method RestoreMedia(w: WorkerId, j: JobId, queue: seq<JobId>, safety: nat)
      returns (report: Option<(nat, nat)>)
      requires Holds(w, j, OpeningMedia(safety), queue)
      modifies this
      ensures old(run) <= run
      ensures match report
        case None => Holds(w, j, Refusing, queue)
        case Some((restored, failed)) =>
          && Holds(w, j, Finishing(safety), queue) && j in s.jobs
          && Tried(s.jobs[j].trail, true) == restored && Tried(s.jobs[j].trail, false) == failed
    {
      var index := ReadIndex(w, j, queue, safety);
      if index == None {
        return None;
      }
      var left, restored, failed := index.value, 0, 0;
      while left > 0
        invariant Holds(w, j, AfterObject(safety, left), queue) && j in s.jobs
        invariant Tried(s.jobs[j].trail, true) == restored && Tried(s.jobs[j].trail, false) == failed
        invariant old(run) <= run
      {
        ghost var trail := s.jobs[j].trail;
        var landed := TryObject(w, j, queue, safety, left);
        OneMoreEvent(trail, Put(w, landed));
        if landed {
          restored := restored + 1;
        } else {
          failed := failed + 1;
        }
        left := left - 1;
      }
      report := Some((restored, failed));
    }

    method Finish(w: WorkerId, j: JobId, queue: seq<JobId>, safety: nat) returns (outcome: Outcome)
      requires Holds(w, j, Finishing(safety), queue)
      modifies this
      ensures Left(w, j, queue, outcome) && old(run) <= run
    {
      var m := Statement();
      var before := AwaitTask(w, j, Finishing(safety), queue, m);
      outcome := if m.Fault? then Passed else Done;
    }

    /** `fail`: the refusal is written to the row, when the row is still running. */
    method Fail(w: WorkerId, j: JobId, queue: seq<JobId>) returns (outcome: Outcome)
      requires Holds(w, j, Refusing, queue)
      modifies this
      ensures Left(w, j, queue, outcome) && old(run) <= run
    {
      var m := Statement();
      var before := AwaitTask(w, j, Refusing, queue, m);
      outcome := if m.Fault? then Passed else Done;
    }

    /**
     Run one job. A call that claimed it and returns `Done` has left its row ended; only an error
     passed on can leave the row running with nobody on it.
     */
    method RunOne(w: WorkerId, j: JobId, queue: seq<JobId>) returns (outcome: Outcome, claimed: bool)
      requires Valid() && StageOf(s, w) == Serving([j] + queue)
      modifies this
      ensures Valid() && StageOf(s, w) == Serving(queue) && old(run) <= run
      ensures claimed ==> Left(w, j, queue, outcome)
      ensures !claimed ==> outcome == Done
    {
      var answer := Claim(w, j, queue);
      if answer == NotClaimed {
        return Done, false;
      }
      claimed := true;
      if answer == CancelledFirst {
        var done := AbortClaimed(w, j, queue);
        if done {
          return Done, true;
        }
        outcome := Fail(w, j, queue);
        return;
      }
      outcome := RunClaimed(w, j, queue);
    }

    /** The rest of `run_one`, for the job the worker claimed. */
    method RunClaimed(w: WorkerId, j: JobId, queue: seq<JobId>) returns (outcome: Outcome)
      requires Holds(w, j, CancelCheck, queue)
      modifies this
      ensures Left(w, j, queue, outcome) && old(run) <= run
    {
      var asked := ReadCancel(w, j, queue);
      if asked == None {
        return Passed;
      }
      if asked.value {
        assert false; // the abort behind this check is never reached: see SecondCancelCheckNeverFires
      }

      var matches := ReadPlan(w, j, queue);
      if matches == None {
        return Passed;
      }
      if !matches.value {
        outcome := Fail(w, j, queue);
        return;
      }

      outcome := RunMatched(w, j, queue);
    }

    /** From the preview on, for a job whose phrase is its run's. */
    method RunMatched(w: WorkerId, j: JobId, queue: seq<JobId>) returns (outcome: Outcome)
      requires Holds(w, j, Pricing, queue)
      modifies this
      ensures Left(w, j, queue, outcome) && old(run) <= run
    {
      var preview := RebuildPreview(w, j, queue);
      if preview.unpriced || !preview.restorable {
        outcome := Fail(w, j, queue);
        return;
      }

      var safety := TakeSafetyBackup(w, j, queue, preview.mediaAvailable);
      if safety == None || !safety.value.complete {
        outcome := Fail(w, j, queue);
        return;
      }

      if preview.mediaAvailable {
        var report := RestoreMedia(w, j, queue, safety.value.id);
        if report == None {
          outcome := Fail(w, j, queue);
          return;
        }
      }
      outcome := Finish(w, j, queue, safety.value.id);
    }

    /** One write of the sweep; `false` when the database refuses it or cannot answer. */
    method SweepOne(w: WorkerId, seen: seq<(JobId, Status)>, next: nat) returns (ok: bool)
      requires Valid() && next < |seen| && StageOf(s, w) == Sweeping(seen, next)
      modifies this
      ensures Valid() && old(run) <= run
      ensures StageOf(s, w) == if ok then Sweeping(seen, next + 1) else Idle
      ensures !ok ==> StoppedSweeping(phrase, run, w)
    {
      Others(w);
      StageIsOk(s, w);
      var m := Statement();
      SweepingWorkerSteps(s, w, m);
      var after := SweepUpdate(s.jobs[seen[next].0].row, seen[next].1, s.clock);
      ok := m.Proceed? && SchemaAllows(after);
      Act(ByWorker(w, m));
    }

    /** The sweep: its read, and one write for every row it returned. */
    method FailStaleJobs(w: WorkerId) returns (stale: Option<nat>, ghost seen: seq<(JobId, Status)>)
      requires Valid() && StageOf(s, w) == Idle
      modifies this
      ensures Valid() && old(run) <= run && |seen| <= SWEEP_LIMIT
      ensures stale == None ==> StageOf(s, w) == Idle && StoppedSweeping(phrase, run, w)
      ensures stale != None ==> stale.value == |seen| && StageOf(s, w) == Sweeping(seen, |seen|)
      ensures stale != None ==>
        forall i :: 0 <= i < |seen| ==> seen[i].0 in s.jobs && Terminal(s.jobs[seen[i].0].row)
    {
      Others(w);
      SweepReadExists(s);
      var rows :| IsSweepRead(s, rows);
      seen := rows;
      Act(ByWorker(w, BeginTick(rows)));
      var next := 0;
      while next < |rows|
        invariant Valid() && old(run) <= run && next <= |rows| && StageOf(s, w) == Sweeping(rows, next)
      {
        var ok := SweepOne(w, rows, next);
        if !ok {
          return None, rows;
        }
        next := next + 1;
      }
      EveryRunKeepsInv(phrase, run);
      StageIsOk(s, w);
      stale := Some(|rows|);
    }

    /**
     One tick: the sweep, the queue, and every job the queue returned, each of them tried once. The
     count a tick answers is the number of jobs it listed, whatever became of them; there is no count
     only when the tick stopped in its sweep or at the read of the queue, and then no job was tried.
     */
    method Tick(w: WorkerId) returns (finished: Option<nat>, listed: seq<JobId>, ghost attempts: seq<Attempt>)
      requires Valid() && StageOf(s, w) == Idle
      modifies this
      ensures Valid() && old(run) <= run && StageOf(s, w) == Idle
      ensures |listed| <= QUEUE_LIMIT && |attempts| == |listed|
      ensures if finished == None then listed == [] && StoppedSweeping(phrase, run, w) else finished == Some(|listed|)
      ensures forall i :: 0 <= i < |listed| ==> Shows(s, w, listed[i], attempts[i])
    {
      listed, attempts := [], [];
      var stale, seen := FailStaleJobs(w);
      if stale == None {
        return None, [], [];
      }
      Others(w);
      var fails: bool := *;
      if fails {
        Act(ByWorker(w, Fault(false)));
        return None, [], [];
      }
      QueueReadExists(s);
      listed :| IsQueueRead(s, listed);
      Act(ByWorker(w, List(listed)));
      var count;
      count, attempts := ServeAll(w, listed);
      finished := Some(count);
    }

    /** Every job the queue listed, one after the other. */
    method ServeAll(w: WorkerId, listed: seq<JobId>) returns (count: nat, ghost attempts: seq<Attempt>)
      requires Valid() && StageOf(s, w) == Serving(listed)
      modifies this
      ensures Valid() && old(run) <= run && StageOf(s, w) == Idle && count == |listed| == |attempts|
      ensures forall i :: 0 <= i < |listed| ==> Shows(s, w, listed[i], attempts[i])
    {
      count, attempts := 0, [];
      assert listed[0..] == listed;
      while count < |listed|
        invariant Valid() && old(run) <= run && count <= |listed| && StageOf(s, w) == Serving(listed[count..])
        invariant |attempts| == count
        invariant forall i :: 0 <= i < count ==> Shows(s, w, listed[i], attempts[i])
      {
        assert listed[count..] == [listed[count]] + listed[count + 1..];
        ghost var before := run;
        var outcome, claimed := RunOne(w, listed[count], listed[count + 1..]);
        ShowsStays(phrase, before, run, w, listed, attempts);
        attempts := attempts + [Attempt(claimed, outcome)];
        count := count + 1;
      }
      ghost var before := run;
      Act(ByWorker(w, Proceed));
      ShowsStays(phrase, before, run, w, listed, attempts);
    }
  }

  /**
   The last thing that happened is that the worker stopped in its sweep without a list: at a row the
   table refused or a write that failed, or at the read of the queue.
   */
  ghost predicate StoppedSweeping(phrase: RunId -> string, run: seq<Action>, w: WorkerId) {
    |run| > 0 && run[|run| - 1].ByWorker? && run[|run| - 1].worker == w && !run[|run| - 1].move.List?
    && StageOf(Exec(Start(phrase), run[..|run| - 1]), w).Sweeping?
    && StageOf(Exec(Start(phrase), run), w) == Idle
  }

  /** Whether a try claimed the job, and how it ended. */
  datatype Attempt = Attempt(claimed: bool, outcome: Outcome)

  /** What a try leaves for good: a claim is this worker's, and one that ended well has ended the row. */
  ghost predicate Shows(s: State, w: WorkerId, j: JobId, a: Attempt) {
    a.claimed ==>
      && j in s.jobs && s.jobs[j].trail != [] && s.jobs[j].trail[0].worker == w
      && (a.outcome == Done ==> Terminal(s.jobs[j].row))
  }

  lemma ShowsStays(phrase: RunId -> string, before: seq<Action>, after: seq<Action>, w: WorkerId,
      listed: seq<JobId>, attempts: seq<Attempt>)
    requires before <= after && |attempts| <= |listed|
    requires forall i :: 0 <= i < |attempts| ==> Shows(Exec(Start(phrase), before), w, listed[i], attempts[i])
    ensures forall i :: 0 <= i < |attempts| ==> Shows(Exec(Start(phrase), after), w, listed[i], attempts[i])
  {
    var s, t := Exec(Start(phrase), before), Exec(Start(phrase), after);
    assert after == before + after[|before|..];
    EveryRunKeepsInv(phrase, before);
    ExecAppends(Start(phrase), before, after[|before|..]);
    RunsStayGood(s, after[|before|..]);
    forall i | 0 <= i < |attempts| && attempts[i].claimed
      ensures Shows(t, w, listed[i], attempts[i])
    {
      assert JobMoves(s.jobs[listed[i]], t.jobs[listed[i]]);
    }
  }

  // ---- what the two reads can always answer

  function CreatedAt(s: State): JobId -> int {
    j => if j in s.jobs then s.jobs[j].row.createdAt else 0
  }

  lemma SweepReadExists(s: State)
    ensures exists seen :: IsSweepRead(s, seen)
  {
    var ids := set j | j in s.jobs && Stale(s.jobs[j].row, s.clock);
    var q := Lists.EarliestExists(ids, CreatedAt(s), SWEEP_LIMIT);
    var seen := seq(|q|, i requires 0 <= i < |q| => (q[i], s.jobs[q[i]].row.status));
    SweepReadOf(s, ids, q, seen);
  }

  lemma SweepReadOf(s: State, ids: set<JobId>, q: seq<JobId>, seen: seq<(JobId, Status)>)
    requires ids == set j | j in s.jobs && Stale(s.jobs[j].row, s.clock)
    requires Lists.IsEarliest(ids, CreatedAt(s), SWEEP_LIMIT, q)
    requires |seen| == |q| && forall i :: 0 <= i < |q| ==> seen[i] == (q[i], s.jobs[q[i]].row.status)
    ensures IsSweepRead(s, seen)
  {
    forall i, k | 0 <= i < k < |seen|
      ensures seen[i].0 != seen[k].0 && s.jobs[seen[i].0].row.createdAt <= s.jobs[seen[k].0].row.createdAt
    {
      assert CreatedAt(s)(q[i]) <= CreatedAt(s)(q[k]);
    }
    forall j | j in s.jobs && Stale(s.jobs[j].row, s.clock) && !WasSeen(seen, j)
      ensures |seen| == SWEEP_LIMIT
      ensures forall i :: 0 <= i < |seen| ==> s.jobs[seen[i].0].row.createdAt <= s.jobs[j].row.createdAt
    {
      assert j !in q by {
        assert forall i :: 0 <= i < |q| ==> seen[i].0 == q[i];
      }
      assert forall i :: 0 <= i < |q| ==> CreatedAt(s)(q[i]) <= CreatedAt(s)(j);
    }
  }

  lemma QueueReadExists(s: State)
    ensures exists queue :: IsQueueRead(s, queue)
  {
    var ids := set j | j in s.jobs && s.jobs[j].row.status == Queued;
    var q := Lists.EarliestExists(ids, CreatedAt(s), QUEUE_LIMIT);
    assert forall i, k :: 0 <= i < k < |q| ==> CreatedAt(s)(q[i]) <= CreatedAt(s)(q[k]);
    assert forall j, i :: j in ids && j !in q && 0 <= i < |q| ==> CreatedAt(s)(q[i]) <= CreatedAt(s)(j);
    assert IsQueueRead(s, q);
  }

  datatype ClaimAnswer = NotClaimed | CancelledFirst | Mine

  /** How many objects this trail tried, by whether they landed. */
  function Tried(trail: seq<Event>, landed: bool): nat {
    if trail == [] then 0
    else Tried(trail[..|trail| - 1], landed)
         + (if trail[|trail| - 1].Put? && trail[|trail| - 1].landed == landed then 1 else 0)
  }

  lemma OneMoreEvent(trail: seq<Event>, e: Event)
    ensures forall landed ::
      Tried(trail + [e], landed) == Tried(trail, landed) + (if e.Put? && e.landed == landed then 1 else 0)
  {
    assert (trail + [e])[..|trail|] == trail;
  }

  lemma {:induction false} NothingTriedYet(trail: seq<Event>)
    requires forall i :: 0 <= i < |trail| ==> !trail[i].Put?
    ensures Tried(trail, true) == 0 && Tried(trail, false) == 0
  {
    if trail != [] {
      NothingTriedYet(trail[..|trail| - 1]);
    }
  }
}
