/** What every reachable state of the restore protocol keeps. */
module RestoreInvariant {
  import opened Options
  import opened RestoreJobs
  import opened RestoreProtocol

  /**
   The shape of a job's trail: one worker, and claim, phrase, preview, safety backup, start of
   writing, objects, in that order and each after the one before it passed.
   */
  ghost predicate TrailOk(trail: seq<Event>, row: Row, phrase: RunId -> string) {
    && (forall i :: 0 <= i < |trail| ==>
          && trail[i].worker == trail[0].worker
          && trail[i].Claimed? == (i == 0)
          && trail[i].PhraseRead? == (i == 1)
          && trail[i].Priced? == (i == 2)
          && trail[i].SafetyTaken? == (i == 3)
          && trail[i].WriteBegan? == (i == 4))
    && (|trail| > 1 ==> trail[1].given == row.confirmation)
    && (|trail| > 2 ==> row.confirmation == phrase(row.run))
    && (|trail| > 3 ==> PricedWell(trail))
    && (|trail| > 4 ==> trail[3].safety.complete && OffersMedia(trail))
  }

  ghost predicate JobOk(job: Job, clock: int, phrase: RunId -> string) {
    var row, trail := job.row, job.trail;
    && SchemaAllows(row)
    && row.createdAt <= clock
    && TrailOk(trail, row, phrase)
    && (row.status == Queued ==> trail == [])
    && (row.status == Running ==> trail != [])
    && (row.status == Aborted ==> |trail| <= 1)
    && (row.status == Succeeded ==>
          && HasSafety(trail, row.safety.value)
          && (OffersMedia(trail) ==> |trail| > 4))
    && (row.status == Failed && !job.swept ==> |trail| <= 4)
    && (job.cancelRecorded ==>
          |trail| <= 1 && row.status != Succeeded && (Live(row) ==> row.cancelRequested))
    && (row.cancelRequested ==> job.cancelRecorded || row.status == Aborted)
    && (job.swept ==> row.status == Failed && trail != [] && row.createdAt < clock - MAX_AGE)
    && (job.abortMissed ==>
          && job.cancelRecorded && trail != []
          && (row.status == Running || row.status == Failed))
    && (job.cancelRecorded && row.status == Failed ==> job.abortMissed || job.swept)
    && (job.orphaned ==> trail != [])
  }

  /** What a worker that waits on `task` knows about the job it claimed. */
  ghost predicate BusyOk(job: Job, w: WorkerId, task: Task, phrase: RunId -> string) {
    var row, trail := job.row, job.trail;
    && trail != [] && trail[0].worker == w
    && !job.orphaned
    && (row.status == Running || (row.status == Failed && job.swept)
        || (row.status == Aborted && task == Refusing && |trail| == 1))
    && (task != ClaimAbort && task != Refusing ==> !job.cancelRecorded)
    && match task
       case ClaimAbort => |trail| == 1 && job.cancelRecorded && !job.abortMissed
       case CancelCheck => |trail| == 1
       case CheckAbort => false
       case Planning => |trail| == 1
       case Pricing => |trail| == 2 && row.confirmation == phrase(row.run)
       case SafetyCopy =>
         |trail| == 3 && PricedWell(trail)
       case OpeningMedia(safety) =>
         |trail| == 4 && HasSafety(trail, safety) && OffersMedia(trail)
       case Writing(safety, left) =>
         |trail| > 4 && HasSafety(trail, safety) && left > 0
       case Finishing(safety) =>
         HasSafety(trail, safety) && (OffersMedia(trail) ==> |trail| > 4)
       case Refusing =>
         && |trail| <= 4
         && (job.cancelRecorded ==> row.status == Aborted || job.abortMissed || job.swept)
         && (|trail| == 1 ==> job.cancelRecorded)
  }

  ghost predicate StageOk(s: State, w: WorkerId) {
    match StageOf(s, w)
    case Idle => true
    case Sweeping(seen, next) =>
      && next <= |seen| <= SWEEP_LIMIT
      && (forall i :: 0 <= i < |seen| ==>
            && seen[i].0 in s.jobs
            && s.jobs[seen[i].0].row.createdAt < s.clock - MAX_AGE
            && (seen[i].1 == Queued ||
                (seen[i].1 == Running && s.jobs[seen[i].0].row.status != Queued)))
      && (forall i :: 0 <= i < next ==> Terminal(s.jobs[seen[i].0].row))
    case Serving(queue) => forall i :: 0 <= i < |queue| ==> queue[i] in s.jobs
    case Busy(j, task, queue) =>
      && (forall i :: 0 <= i < |queue| ==> queue[i] in s.jobs)
      && j in s.jobs && BusyOk(s.jobs[j], w, task, s.phrase)
  }

  ghost predicate BusyOn(s: State, w: WorkerId, j: JobId) {
    StageOf(s, w).Busy? && StageOf(s, w).job == j
  }

  /** A running row has its claimer at work on it, or was left behind by it. */
  ghost predicate Attended(s: State, j: JobId)
    requires j in s.jobs
  {
    var job := s.jobs[j];
    job.row.status == Running && job.trail != [] ==>
      job.orphaned || BusyOn(s, job.trail[0].worker, j)
  }

  /** The partial unique index: a run has one live row at most. */
  ghost predicate OneLivePerRun(s: State) {
    forall i, j | i in s.jobs && j in s.jobs && i != j ::
      Live(s.jobs[i].row) && Live(s.jobs[j].row) ==> s.jobs[i].row.run != s.jobs[j].row.run
  }

  ghost predicate Inv(s: State) {
    && (forall j :: j in s.jobs ==> JobOk(s.jobs[j], s.clock, s.phrase))
    && (forall w :: StageOk(s, w))
    && (forall j :: j in s.jobs ==> Attended(s, j))
    && OneLivePerRun(s)
  }

  /** What every action does to a job it touches. */
  ghost predicate JobMoves(before: Job, after: Job) {
    && before.trail <= after.trail
    && after.row.run == before.row.run && after.row.createdAt == before.row.createdAt
    && after.row.confirmation == before.row.confirmation
    && (Live(after.row) ==> Live(before.row))
    && (after.row.status == Queued ==> before.row.status == Queued)
    && (Terminal(before.row) ==> after.row == before.row)
    && (before.cancelRecorded ==> after.cancelRecorded)
    && (before.swept ==> after.swept)
  }

  /** What a run does to the jobs it starts from. */
  ghost predicate Later(s: State, s': State) {
    && s'.phrase == s.phrase && s'.clock >= s.clock
    && (forall j :: j in s.jobs ==>
          j in s'.jobs && JobMoves(s.jobs[j], s'.jobs[j]))
    && (forall j :: j in s'.jobs && j !in s.jobs ==> s'.jobs[j].row.createdAt >= s.clock)
  }

  ghost predicate Good(s: State, s': State) {
    Inv(s') && Later(s, s')
  }

  /** The two states agree on all jobs but `j`, which moved forward, and no job is new. */
  ghost predicate OneJobMoved(s: State, s': State, j: JobId) {
    && s'.clock == s.clock && s'.phrase == s.phrase
    && j in s.jobs && s'.jobs.Keys == s.jobs.Keys
    && (forall k :: k in s.jobs && k != j ==> s'.jobs[k] == s.jobs[k])
    && JobMoves(s.jobs[j], s'.jobs[j])
  }

  lemma OneJobMovedIsLater(s: State, s': State, j: JobId)
    requires OneJobMoved(s, s', j)
    ensures Later(s, s')
    ensures OneLivePerRun(s) ==> OneLivePerRun(s')
  {
    forall k | k in s.jobs ensures JobMoves(s.jobs[k], s'.jobs[k]) {
    }
  }

  /** A worker that did not move keeps what it knows while another job moves forward. */
  lemma OtherStageStaysOk(s: State, s': State, j: JobId, v: WorkerId)
    requires OneJobMoved(s, s', j) && StageOk(s, v) && StageOf(s', v) == StageOf(s, v)
    requires BusyOn(s, v, j) ==> BusyOk(s'.jobs[j], v, StageOf(s, v).task, s.phrase)
    ensures StageOk(s', v)
  {
    match StageOf(s, v)
    case Idle =>
    case Serving(_) =>
    case Busy(_, _, _) =>
    case Sweeping(seen, next) =>
      forall i | 0 <= i < |seen|
        ensures seen[i].0 in s'.jobs && s'.jobs[seen[i].0].row.createdAt < s'.clock - MAX_AGE
        ensures seen[i].1 == Queued || (seen[i].1 == Running && s'.jobs[seen[i].0].row.status != Queued)
        ensures i < next ==> Terminal(s'.jobs[seen[i].0].row)
      {
      }
  }

  /** The frame of a step by one worker on one job: what is left to check is local to the two. */
  lemma LocalStep(s: State, s': State, w: WorkerId, j: JobId)
    requires Inv(s) && OneJobMoved(s, s', j)
    requires forall v: WorkerId :: v != w ==> StageOf(s', v) == StageOf(s, v)
    requires StageOf(s, w).Busy? ==> StageOf(s, w).job == j
    requires JobOk(s'.jobs[j], s.clock, s.phrase)
    requires StageOk(s', w) && Attended(s', j)
    requires forall v: WorkerId :: v != w && BusyOn(s, v, j) ==>
      BusyOk(s'.jobs[j], v, StageOf(s, v).task, s.phrase)
    ensures Good(s, s')
  {
    OneJobMovedIsLater(s, s', j);
    forall v: WorkerId ensures StageOk(s', v) {
      if v != w {
        assert StageOk(s, v);
        OtherStageStaysOk(s, s', j, v);
      }
    }
    OthersStayAttended(s, s', w, j);
  }

  /** Who is busy on another job still is. */
  lemma OthersStayAttended(s: State, s': State, w: WorkerId, j: JobId)
    requires Inv(s) && OneJobMoved(s, s', j)
    requires forall v: WorkerId :: v != w ==> StageOf(s', v) == StageOf(s, v)
    requires StageOf(s, w).Busy? ==> StageOf(s, w).job == j
    ensures forall k :: k in s'.jobs && k != j ==> Attended(s', k)
  {
    forall k | k in s'.jobs && k != j ensures Attended(s', k) {
      assert Attended(s, k);
    }
  }

  /** A step that only moves a worker that is not busy. */
  lemma StageOnly(s: State, s': State, w: WorkerId)
    requires Inv(s) && !StageOf(s, w).Busy?
    requires s'.clock == s.clock && s'.phrase == s.phrase && s'.jobs == s.jobs
    requires forall v: WorkerId :: v != w ==> StageOf(s', v) == StageOf(s, v)
    requires StageOk(s', w)
    ensures Good(s, s')
  {
    forall v: WorkerId ensures StageOk(s', v) {
      if v != w {
        assert StageOk(s, v);
      }
    }
    forall k | k in s'.jobs ensures Attended(s', k) {
      assert Attended(s, k);
    }
  }

  /** A sweep's write keeps what is known about the row, also by a worker still busy on it. */
  lemma SweptJob(job: Job, seen: Status, clock: int, phrase: RunId -> string)
    requires JobOk(job, clock, phrase) && job.row.createdAt < clock - MAX_AGE
    requires seen == Queued || (seen == Running && job.row.status != Queued)
    requires SchemaAllows(SweepUpdate(job.row, seen, clock))
    ensures var after := Swept(job, SweepUpdate(job.row, seen, clock));
      && JobMoves(job, after) && JobOk(after, clock, phrase)
      && Terminal(after.row)
      && (forall w, task :: BusyOk(job, w, task, phrase) ==> BusyOk(after, w, task, phrase))
  {
    SweepWriteSettles(job.row, seen, clock);
  }

  lemma SweptStageIsOk(s: State, w: WorkerId, s': State)
    requires StageOf(s, w).Sweeping? && StageOk(s, w) && StageOf(s, w).next < |StageOf(s, w).seen|
    requires var Sweeping(seen, next) := StageOf(s, w);
      && var j := seen[next].0;
      && j in s'.jobs && Terminal(s'.jobs[j].row) && JobMoves(s.jobs[j], s'.jobs[j])
      && s'.clock == s.clock && s'.jobs == s.jobs[j := s'.jobs[j]]
      && StageOf(s', w) == Sweeping(seen, next + 1)
    ensures StageOk(s', w)
  {
    var Sweeping(seen, next) := StageOf(s, w);
    forall i | 0 <= i < |seen|
      ensures seen[i].0 in s'.jobs && s'.jobs[seen[i].0].row.createdAt < s'.clock - MAX_AGE
      ensures seen[i].1 == Queued || (seen[i].1 == Running && s'.jobs[seen[i].0].row.status != Queued)
      ensures i <= next ==> Terminal(s'.jobs[seen[i].0].row)
    {
    }
  }

  lemma SweepWriteKeepsInv(s: State, w: WorkerId, after: Row, stage: Stage)
    requires Inv(s) && StageOf(s, w).Sweeping? && StageOf(s, w).next < |StageOf(s, w).seen|
    requires var Sweeping(seen, next) := StageOf(s, w);
      && seen[next].0 in s.jobs
      && after == SweepUpdate(s.jobs[seen[next].0].row, seen[next].1, s.clock)
      && (stage == Idle || stage == Sweeping(seen, next + 1))
    requires SchemaAllows(after)
    ensures var j := StageOf(s, w).seen[StageOf(s, w).next].0;
      Good(s, SetStage(SetJob(s, j, Swept(s.jobs[j], after)), w, stage))
  {
    var Sweeping(seen, next) := StageOf(s, w);
    var j := seen[next].0;
    var s' := SetStage(SetJob(s, j, Swept(s.jobs[j], after)), w, stage);
    StageIsOk(s, w);
    assert JobOk(s.jobs[j], s.clock, s.phrase);
    SweptJob(s.jobs[j], seen[next].1, s.clock, s.phrase);
    SweepingStageIsOk(s, w, s', j);
    forall v: WorkerId | v != w && BusyOn(s, v, j)
      ensures BusyOk(s'.jobs[j], v, StageOf(s, v).task, s.phrase)
    {
      StageIsOk(s, v);
    }
    LocalStep(s, s', w, j);
  }

  /** The sweeping worker behind its write: at the next row, or idle. */
  lemma SweepingStageIsOk(s: State, w: WorkerId, s': State, j: JobId)
    requires StageOf(s, w).Sweeping? && StageOk(s, w) && StageOf(s, w).next < |StageOf(s, w).seen|
    requires j == StageOf(s, w).seen[StageOf(s, w).next].0 && j in s.jobs && j in s'.jobs
    requires Terminal(s'.jobs[j].row) && JobMoves(s.jobs[j], s'.jobs[j])
    requires s'.clock == s.clock && s'.jobs == s.jobs[j := s'.jobs[j]]
    requires StageOf(s', w) == Idle || StageOf(s', w) == Sweeping(StageOf(s, w).seen, StageOf(s, w).next + 1)
    ensures StageOk(s', w) && Attended(s', j)
  {
    if StageOf(s', w) != Idle {
      SweptStageIsOk(s, w, s');
    }
  }

  lemma SweepingWorkerSteps(s: State, w: WorkerId, m: Move)
    requires StageOf(s, w).Sweeping?
    ensures Apply(s, ByWorker(w, m)) == SweepStep(s, w, StageOf(s, w).seen, StageOf(s, w).next, m)
  {
  }

  lemma SweepKeepsInv(s: State, w: WorkerId, m: Move)
    requires Inv(s) && StageOf(s, w).Sweeping?
    ensures Good(s, Apply(s, ByWorker(w, m)))
  {
    LaterIsReflexive(s);
    var Sweeping(seen, next) := StageOf(s, w);
    SweepingWorkerSteps(s, w, m);
    if next < |seen| && (m.Proceed? || (m.Fault? && m.committed)) {
      StageIsOk(s, w);
      SweepStatementKeepsInv(s, w, m);
    } else {
      StageOnly(s, SweepStep(s, w, seen, next, m), w);
    }
  }

  lemma SweepStatementKeepsInv(s: State, w: WorkerId, m: Move)
    requires Inv(s) && StageOf(s, w).Sweeping? && StageOf(s, w).next < |StageOf(s, w).seen|
    requires m.Proceed? || (m.Fault? && m.committed)
    requires StageOf(s, w).seen[StageOf(s, w).next].0 in s.jobs
    ensures Good(s, SweepStep(s, w, StageOf(s, w).seen, StageOf(s, w).next, m))
  {
    var Sweeping(seen, next) := StageOf(s, w);
    var after := SweepUpdate(s.jobs[seen[next].0].row, seen[next].1, s.clock);
    SweepStatementSteps(s, w, seen, next, m);
    if SchemaAllows(after) {
      SweepWriteKeepsInv(s, w, after, if m.Fault? then Idle else Sweeping(seen, next + 1));
    } else {
      IdlingKeepsInv(s, w);
    }
  }

  /** One write of the sweep: the table takes it, or refuses it and the tick is over. */
  lemma SweepStatementSteps(s: State, w: WorkerId, seen: seq<(JobId, Status)>, next: nat, m: Move)
    requires next < |seen| && seen[next].0 in s.jobs && (m.Proceed? || (m.Fault? && m.committed))
    ensures var j := seen[next].0;
      var after := SweepUpdate(s.jobs[j].row, seen[next].1, s.clock);
      SweepStep(s, w, seen, next, m) ==
        if SchemaAllows(after)
        then SetStage(SetJob(s, j, Swept(s.jobs[j], after)), w, if m.Fault? then Idle else Sweeping(seen, next + 1))
        else SetStage(s, w, Idle)
  {
  }

  lemma IdlingKeepsInv(s: State, w: WorkerId)
    requires Inv(s) && !StageOf(s, w).Busy?
    ensures Good(s, SetStage(s, w, Idle))
  {
    StageOnly(s, SetStage(s, w, Idle), w);
  }

  /** Whoever is busy on a job is the worker that claimed it, so there is at most one. */
  lemma BusyWorkerClaimedIt(s: State, j: JobId)
    requires Inv(s) && j in s.jobs
    ensures forall v: WorkerId :: BusyOn(s, v, j) ==> s.jobs[j].trail != [] && s.jobs[j].trail[0].worker == v
  {
    forall v: WorkerId ensures BusyOn(s, v, j) ==> s.jobs[j].trail != [] && s.jobs[j].trail[0].worker == v {
      assert StageOk(s, v);
    }
  }

  lemma ClaimedJobIsOk(job: Job, w: WorkerId, lost: bool, clock: int, phrase: RunId -> string)
    requires JobOk(job, clock, phrase) && job.row.status == Queued
    ensures var after := ClaimedJob(job, w, lost, clock);
      && JobMoves(job, after) && JobOk(after, clock, phrase) && after.trail == [Claimed(w)]
      && (!lost && !job.orphaned ==>
            BusyOk(after, w, if job.row.cancelRequested then ClaimAbort else CancelCheck, phrase))
  {
    assert job.trail == [];
  }

  lemma ClaimKeepsInv(s: State, w: WorkerId, lost: bool)
    requires Inv(s) && StageOf(s, w).Serving? && StageOf(s, w).queue != []
    requires StageOf(s, w).queue[0] in s.jobs && s.jobs[StageOf(s, w).queue[0]].row.status == Queued
    ensures Good(s, ServeStep(s, w, StageOf(s, w).queue, if lost then Fault(true) else Proceed))
  {
    var queue := StageOf(s, w).queue;
    var s' := ServeStep(s, w, queue, if lost then Fault(true) else Proceed);
    var j := queue[0];
    StageIsOk(s, w);
    assert JobOk(s.jobs[j], s.clock, s.phrase);
    BusyWorkerClaimedIt(s, j);
    ClaimedJobIsOk(s.jobs[j], w, lost, s.clock, s.phrase);
    ClaimSteps(s, w, queue, lost);
    ClaimingStageIsOk(s, s', w, queue, lost);
    LocalStep(s, s', w, j);
  }

  function ClaimedStage(job: Job, j: JobId, queue: seq<JobId>, lost: bool): Stage
    requires queue != []
  {
    if lost then Serving(queue[1..])
    else Busy(j, if job.row.cancelRequested then ClaimAbort else CancelCheck, queue[1..])
  }

  /** The claim of the first job of the queue, also when its answer is lost. */
  lemma ClaimSteps(s: State, w: WorkerId, queue: seq<JobId>, lost: bool)
    requires queue != [] && queue[0] in s.jobs && s.jobs[queue[0]].row.status == Queued
    ensures ServeStep(s, w, queue, if lost then Fault(true) else Proceed)
      == SetStage(SetJob(s, queue[0], ClaimedJob(s.jobs[queue[0]], w, lost, s.clock)), w,
                  ClaimedStage(s.jobs[queue[0]], queue[0], queue, lost))
  {
  }

  lemma ClaimingStageIsOk(s: State, s': State, w: WorkerId, queue: seq<JobId>, lost: bool)
    requires StageOf(s, w) == Serving(queue) && queue != [] && StageOk(s, w)
    requires queue[0] in s.jobs && s.jobs[queue[0]].row.status == Queued
    requires JobOk(s.jobs[queue[0]], s.clock, s.phrase)
    requires s' == SetStage(SetJob(s, queue[0], ClaimedJob(s.jobs[queue[0]], w, lost, s.clock)), w,
                            ClaimedStage(s.jobs[queue[0]], queue[0], queue, lost))
    ensures StageOk(s', w) && Attended(s', queue[0]) && OneJobMoved(s, s', queue[0])
  {
    ClaimedJobIsOk(s.jobs[queue[0]], w, lost, s.clock, s.phrase);
  }

  lemma ServingWorkerSteps(s: State, w: WorkerId, m: Move)
    requires StageOf(s, w).Serving?
    ensures Apply(s, ByWorker(w, m)) == ServeStep(s, w, StageOf(s, w).queue, m)
  {
  }

  lemma ServeKeepsInv(s: State, w: WorkerId, m: Move)
    requires Inv(s) && StageOf(s, w).Serving?
    ensures Good(s, Apply(s, ByWorker(w, m)))
  {
    LaterIsReflexive(s);
    var queue := StageOf(s, w).queue;
    ServingWorkerSteps(s, w, m);
    var s' := ServeStep(s, w, queue, m);
    assert StageOk(s, w);
    if m.Crash? || (queue == [] && m.Proceed?) {
      StageOnly(s, s', w);
    } else if queue == [] || queue[0] !in s.jobs || !(m.Proceed? || m.Fault?) {
    } else if s.jobs[queue[0]].row.status != Queued || (m.Fault? && !m.committed) {
      StageOnly(s, s', w);
    } else {
      ClaimKeepsInv(s, w, m.Fault?);
    }
  }

  /** The frame of a busy worker's step: it moves its own job and itself. */
  lemma BusyStepKeepsInv(s: State, w: WorkerId, after: Job, stage: Stage)
    requires Inv(s) && StageOf(s, w).Busy? && StageOf(s, w).job in s.jobs
    requires JobMoves(s.jobs[StageOf(s, w).job], after) && JobOk(after, s.clock, s.phrase)
    requires after.row.status == Running ==> after.orphaned || BusyOn(SetStage(s, w, stage), w, StageOf(s, w).job)
    requires stage == Idle || stage == Serving(StageOf(s, w).queue)
      || (stage.Busy? && stage.job == StageOf(s, w).job && stage.queue == StageOf(s, w).queue
          && BusyOk(after, w, stage.task, s.phrase))
    ensures Good(s, SetStage(SetJob(s, StageOf(s, w).job, after), w, stage))
  {
    var j := StageOf(s, w).job;
    var s' := SetStage(SetJob(s, j, after), w, stage);
    assert StageOk(s, w);
    assert after.trail[0] == s.jobs[j].trail[0];
    BusyWorkerClaimedIt(s, j);
    LocalStep(s, s', w, j);
  }

  /** What a worker may have made of its job when it leaves it. */
  ghost predicate LeavesAs(job: Job, task: Task, clock: int, after: Job) {
    || after == job
    || ((task == ClaimAbort || task == CheckAbort) && after == job.(row := AbortUpdate(job.row, clock)))
    || (task == ClaimAbort && after == job.(abortMissed := true))
    || (task.Finishing? && after == job.(row := SucceedUpdate(job.row, task.safety, clock)))
    || (task == Refusing && after == job.(row := FailUpdate(job.row, clock)))
  }

  lemma LeavingJobIsOk(job: Job, w: WorkerId, task: Task, clock: int, phrase: RunId -> string, after: Job)
    requires JobOk(job, clock, phrase) && BusyOk(job, w, task, phrase)
    requires LeavesAs(job, task, clock, after)
    ensures var left := after.(orphaned := after.orphaned || after.row.status == Running);
      JobMoves(job, left) && JobOk(left, clock, phrase)
  {
  }

  /** A worker that leaves keeps the facts of the row, whatever statement it left after. */
  lemma LeaveKeepsInv(s: State, w: WorkerId, after: Job, stage: Stage)
    requires Inv(s) && StageOf(s, w).Busy? && StageOf(s, w).job in s.jobs
    requires stage == Idle || stage == Serving(StageOf(s, w).queue)
    requires LeavesAs(s.jobs[StageOf(s, w).job], StageOf(s, w).task, s.clock, after)
    ensures Good(s, Leave(s, w, StageOf(s, w).job, after, stage))
  {
    BusyJobIsOk(s, w);
    LeavingJobIsOk(s.jobs[StageOf(s, w).job], w, StageOf(s, w).task, s.clock, s.phrase, after);
    BusyStepKeepsInv(s, w, after.(orphaned := after.orphaned || after.row.status == Running), stage);
  }

  lemma BusyWorkerSteps(s: State, w: WorkerId, m: Move)
    requires StageOf(s, w).Busy? && StageOf(s, w).job in s.jobs
    ensures var Busy(j, task, queue) := StageOf(s, w);
      Apply(s, ByWorker(w, m)) == BusyStep(s, w, j, task, queue, m)
  {
  }

  /** One more event, and the task that follows it. */
  lemma ContinueKeepsInv(s: State, w: WorkerId, event: Event, task: Task)
    requires Inv(s) && StageOf(s, w).Busy? && StageOf(s, w).job in s.jobs
    requires EventOk(s.jobs[StageOf(s, w).job], w, event, task, s.clock, s.phrase)
    ensures Good(s, Continue(s, w, StageOf(s, w).job, event, task, StageOf(s, w).queue))
  {
    var job := s.jobs[StageOf(s, w).job];
    BusyStepKeepsInv(s, w, job.(trail := job.trail + [event]),
                     Busy(StageOf(s, w).job, task, StageOf(s, w).queue));
  }

  lemma ClaimAbortKeepsInv(s: State, w: WorkerId, m: Move)
    requires Inv(s) && StageOf(s, w).Busy? && StageOf(s, w).job in s.jobs && !m.Crash?
    requires StageOf(s, w).task == ClaimAbort
    ensures Good(s, Apply(s, ByWorker(w, m)))
  {
    LaterIsReflexive(s);
    var Busy(j, task, queue) := StageOf(s, w);
    var job := s.jobs[j];
    BusyWorkerSteps(s, w, m);
    BusyJobIsOk(s, w);
    if m.Proceed? {
      LeaveKeepsInv(s, w, job.(row := AbortUpdate(job.row, s.clock)), Serving(queue));
    } else if m.Fault? {
      var after := if m.committed then job.(row := AbortUpdate(job.row, s.clock)) else job.(abortMissed := true);
      BusyStepKeepsInv(s, w, after, Busy(j, Refusing, queue));
    }
  }

  lemma EarlyTaskKeepsInv(s: State, w: WorkerId, m: Move)
    requires Inv(s) && StageOf(s, w).Busy? && StageOf(s, w).job in s.jobs && !m.Crash?
    requires StageOf(s, w).task == CancelCheck || StageOf(s, w).task == Planning
    ensures Good(s, Apply(s, ByWorker(w, m)))
  {
    LaterIsReflexive(s);
    var Busy(j, task, queue) := StageOf(s, w);
    var job := s.jobs[j];
    BusyWorkerSteps(s, w, m);
    BusyJobIsOk(s, w);
    if m.Fault? {
      LeaveKeepsInv(s, w, job, Serving(queue));
    } else if m.Proceed? && task == CancelCheck {
      assert !job.row.cancelRequested;
      TurnKeepsInv(s, w, Planning);
    } else if m.Proceed? {
      PhraseReadIsOk(job, w, s.clock, s.phrase);
      ContinueKeepsInv(s, w, PhraseRead(w, job.row.confirmation),
                       if job.row.confirmation != s.phrase(job.row.run) then Refusing else Pricing);
    }
  }

  // ---- what the next event needs, for one job

  ghost predicate EventOk(job: Job, w: WorkerId, event: Event, next: Task, clock: int,
                          phrase: RunId -> string) {
    var after := job.(trail := job.trail + [event]);
    JobMoves(job, after) && JobOk(after, clock, phrase) && BusyOk(after, w, next, phrase)
  }

  lemma PhraseReadIsOk(job: Job, w: WorkerId, clock: int, phrase: RunId -> string)
    requires JobOk(job, clock, phrase) && BusyOk(job, w, Planning, phrase)
    ensures EventOk(job, w, PhraseRead(w, job.row.confirmation),
                    if job.row.confirmation != phrase(job.row.run) then Refusing else Pricing,
                    clock, phrase)
  {
  }

  lemma PricedIsOk(job: Job, w: WorkerId, preview: Preview, clock: int, phrase: RunId -> string)
    requires JobOk(job, clock, phrase) && BusyOk(job, w, Pricing, phrase)
    ensures EventOk(job, w, Priced(w, preview),
                    if preview.unpriced || !preview.restorable then Refusing else SafetyCopy,
                    clock, phrase)
  {
  }

  lemma SafetyTakenIsOk(job: Job, w: WorkerId, safety: Safety, clock: int, phrase: RunId -> string)
    requires JobOk(job, clock, phrase) && BusyOk(job, w, SafetyCopy, phrase)
    ensures EventOk(job, w, SafetyTaken(w, safety), AfterSafety(job.trail, safety), clock, phrase)
  {
  }

  lemma WriteBeganIsOk(job: Job, w: WorkerId, safety: nat, n: nat, clock: int, phrase: RunId -> string)
    requires JobOk(job, clock, phrase) && BusyOk(job, w, OpeningMedia(safety), phrase)
    ensures EventOk(job, w, WriteBegan(w), AfterObject(safety, n), clock, phrase)
  {
  }

  lemma PutIsOk(job: Job, w: WorkerId, safety: nat, left: nat, landed: bool, clock: int,
                phrase: RunId -> string)
    requires JobOk(job, clock, phrase) && left > 0 && BusyOk(job, w, Writing(safety, left), phrase)
    ensures EventOk(job, w, Put(w, landed), AfterObject(safety, left - 1), clock, phrase)
  {
  }

  lemma StageIsOk(s: State, w: WorkerId)
    requires Inv(s)
    ensures StageOk(s, w)
  {
  }

  /** A busy worker's job, and what is known about it. */
  lemma BusyJobIsOk(s: State, w: WorkerId)
    requires Inv(s) && StageOf(s, w).Busy?
    ensures StageOf(s, w).job in s.jobs
    ensures JobOk(s.jobs[StageOf(s, w).job], s.clock, s.phrase)
    ensures BusyOk(s.jobs[StageOf(s, w).job], w, StageOf(s, w).task, s.phrase)
  {
    assert StageOk(s, w);
  }

  /** The worker turns to another task without touching the job. */
  lemma TurnKeepsInv(s: State, w: WorkerId, task: Task)
    requires Inv(s) && StageOf(s, w).Busy? && StageOf(s, w).job in s.jobs
    requires BusyOk(s.jobs[StageOf(s, w).job], w, task, s.phrase)
    ensures Good(s, SetStage(s, w, Busy(StageOf(s, w).job, task, StageOf(s, w).queue)))
  {
    var Busy(j, _, queue) := StageOf(s, w);
    BusyJobIsOk(s, w);
    BusyStepKeepsInv(s, w, s.jobs[j], Busy(j, task, queue));
    assert s.jobs == s.jobs[j := s.jobs[j]];
    assert SetJob(s, j, s.jobs[j]) == s;
  }

  lemma MiddleTaskKeepsInv(s: State, w: WorkerId, m: Move)
    requires Inv(s) && StageOf(s, w).Busy? && StageOf(s, w).job in s.jobs && !m.Crash?
    requires StageOf(s, w).task == Pricing || StageOf(s, w).task == SafetyCopy
    ensures Good(s, Apply(s, ByWorker(w, m)))
  {
    LaterIsReflexive(s);
    var Busy(j, task, queue) := StageOf(s, w);
    var job := s.jobs[j];
    BusyWorkerSteps(s, w, m);
    BusyJobIsOk(s, w);
    if task == Pricing && m.PreviewBuilt? {
      PricedIsOk(job, w, m.preview, s.clock, s.phrase);
      ContinueKeepsInv(s, w, Priced(w, m.preview),
                       if m.preview.unpriced || !m.preview.restorable then Refusing else SafetyCopy);
    } else if task == SafetyCopy && m.SafetyEnded? {
      match m.taken
      case None => TurnKeepsInv(s, w, Refusing);
      case Some(safety) =>
        SafetyTakenIsOk(job, w, safety, s.clock, s.phrase);
        ContinueKeepsInv(s, w, SafetyTaken(w, safety), AfterSafety(job.trail, safety));
    }
  }

  lemma OpeningKeepsInv(s: State, w: WorkerId, m: Move)
    requires Inv(s) && StageOf(s, w).Busy? && StageOf(s, w).job in s.jobs && !m.Crash?
    requires StageOf(s, w).task.OpeningMedia?
    ensures Good(s, Apply(s, ByWorker(w, m)))
  {
    LaterIsReflexive(s);
    BusyWorkerSteps(s, w, m);
    BusyJobIsOk(s, w);
    if m.IndexRead? {
      match m.objects
      case None => TurnKeepsInv(s, w, Refusing);
      case Some(n) =>
        var safety := StageOf(s, w).task.safety;
        WriteBeganIsOk(s.jobs[StageOf(s, w).job], w, safety, n, s.clock, s.phrase);
        ContinueKeepsInv(s, w, WriteBegan(w), AfterObject(safety, n));
    }
  }

  lemma WritingKeepsInv(s: State, w: WorkerId, m: Move)
    requires Inv(s) && StageOf(s, w).Busy? && StageOf(s, w).job in s.jobs && !m.Crash?
    requires StageOf(s, w).task.Writing?
    ensures Good(s, Apply(s, ByWorker(w, m)))
  {
    LaterIsReflexive(s);
    var Busy(j, task, queue) := StageOf(s, w);
    BusyWorkerSteps(s, w, m);
    BusyJobIsOk(s, w);
    if m.ObjectTried? {
      PutIsOk(s.jobs[j], w, task.safety, task.left, m.landed, s.clock, s.phrase);
      ContinueKeepsInv(s, w, Put(w, m.landed), AfterObject(task.safety, task.left - 1));
    }
  }

  lemma FinishingKeepsInv(s: State, w: WorkerId, m: Move)
    requires Inv(s) && StageOf(s, w).Busy? && StageOf(s, w).job in s.jobs && !m.Crash?
    requires StageOf(s, w).task.Finishing?
    ensures Good(s, Apply(s, ByWorker(w, m)))
  {
    FinishSteps(s, w, m);
    if m.Proceed? || (m.Fault? && m.committed) {
      FinishLands(s, w, m);
    } else if m.Fault? {
      LeaveKeepsInv(s, w, s.jobs[StageOf(s, w).job], Serving(StageOf(s, w).queue));
    } else {
      LaterIsReflexive(s);
    }
  }

  /** The last statement of a job: it lands, or the worker leaves the job as it is, or still waits. */
  lemma FinishSteps(s: State, w: WorkerId, m: Move)
    requires StageOf(s, w).Busy? && StageOf(s, w).job in s.jobs && StageOf(s, w).task.Finishing? && !m.Crash?
    ensures m.Fault? && !m.committed ==>
      Apply(s, ByWorker(w, m)) == Leave(s, w, StageOf(s, w).job, s.jobs[StageOf(s, w).job], Serving(StageOf(s, w).queue))
    ensures !m.Proceed? && !m.Fault? ==> Apply(s, ByWorker(w, m)) == s
  {
    BusyWorkerSteps(s, w, m);
  }

  lemma FinishLands(s: State, w: WorkerId, m: Move)
    requires Inv(s) && StageOf(s, w).Busy? && StageOf(s, w).job in s.jobs
    requires StageOf(s, w).task.Finishing? && (m.Proceed? || (m.Fault? && m.committed))
    ensures Good(s, Apply(s, ByWorker(w, m)))
  {
    var j, queue := StageOf(s, w).job, StageOf(s, w).queue;
    var succeeded := s.jobs[j].(row := SucceedUpdate(s.jobs[j].row, StageOf(s, w).task.safety, s.clock));
    FinishStep(s, w, m);
    LeaveKeepsInv(s, w, succeeded, Serving(queue));
  }

  lemma FinishStep(s: State, w: WorkerId, m: Move)
    requires StageOf(s, w).Busy? && StageOf(s, w).job in s.jobs
    requires StageOf(s, w).task.Finishing? && (m.Proceed? || (m.Fault? && m.committed))
    ensures var Busy(j, task, queue) := StageOf(s, w);
      Apply(s, ByWorker(w, m))
      == Leave(s, w, j, s.jobs[j].(row := SucceedUpdate(s.jobs[j].row, task.safety, s.clock)), Serving(queue))
  {
    BusyWorkerSteps(s, w, m);
  }

  lemma RefusingKeepsInv(s: State, w: WorkerId, m: Move)
    requires Inv(s) && StageOf(s, w).Busy? && StageOf(s, w).job in s.jobs && !m.Crash?
    requires StageOf(s, w).task == Refusing
    ensures Good(s, Apply(s, ByWorker(w, m)))
  {
    var j, queue := StageOf(s, w).job, StageOf(s, w).queue;
    RefuseSteps(s, w, m);
    if m.Proceed? || (m.Fault? && m.committed) {
      LeaveKeepsInv(s, w, s.jobs[j].(row := FailUpdate(s.jobs[j].row, s.clock)), Serving(queue));
    } else if m.Fault? {
      LeaveKeepsInv(s, w, s.jobs[j], Serving(queue));
    } else {
      LaterIsReflexive(s);
    }
  }

  lemma RefuseSteps(s: State, w: WorkerId, m: Move)
    requires StageOf(s, w).Busy? && StageOf(s, w).job in s.jobs && StageOf(s, w).task == Refusing && !m.Crash?
    ensures var j, queue := StageOf(s, w).job, StageOf(s, w).queue;
      var t := Apply(s, ByWorker(w, m));
      && (m.Proceed? || (m.Fault? && m.committed) ==>
            t == Leave(s, w, j, s.jobs[j].(row := FailUpdate(s.jobs[j].row, s.clock)), Serving(queue)))
      && (m.Fault? && !m.committed ==> t == Leave(s, w, j, s.jobs[j], Serving(queue)))
      && (!m.Proceed? && !m.Fault? ==> t == s)
  {
    BusyWorkerSteps(s, w, m);
  }

  lemma WorkerKeepsInv(s: State, w: WorkerId, m: Move)
    requires Inv(s)
    ensures Good(s, Apply(s, ByWorker(w, m)))
  {
    LaterIsReflexive(s);
    assert StageOk(s, w);
    match StageOf(s, w)
    case Idle =>
      if m.BeginTick? && IsSweepRead(s, m.seen) {
        StageOnly(s, SetStage(s, w, Sweeping(m.seen, 0)), w);
      }
    case Sweeping(_, _) => SweepKeepsInv(s, w, m);
    case Serving(_) => ServeKeepsInv(s, w, m);
    case Busy(j, task, queue) =>
      if m.Crash? {
        BusyWorkerSteps(s, w, m);
        LeaveKeepsInv(s, w, s.jobs[j].(abortMissed := s.jobs[j].abortMissed || task == ClaimAbort), Idle);
      } else if task == ClaimAbort {
        ClaimAbortKeepsInv(s, w, m);
      } else if task == CancelCheck || task == Planning {
        EarlyTaskKeepsInv(s, w, m);
      } else if task == Pricing || task == SafetyCopy {
        MiddleTaskKeepsInv(s, w, m);
      } else if task.OpeningMedia? {
        OpeningKeepsInv(s, w, m);
      } else if task.Writing? {
        WritingKeepsInv(s, w, m);
      } else if task.Finishing? {
        FinishingKeepsInv(s, w, m);
      } else {
        RefusingKeepsInv(s, w, m);
      }
  }

  lemma AddedJobKeepsStage(s: State, j: JobId, job: Job, w: WorkerId)
    requires j !in s.jobs && StageOk(s, w)
    ensures StageOk(SetJob(s, j, job), w)
  {
    match StageOf(s, w)
    case Idle =>
    case Sweeping(_, _) =>
    case Serving(_) =>
    case Busy(_, _, _) =>
  }

  lemma AddedJobIsLater(s: State, j: JobId, job: Job)
    requires j !in s.jobs && job.row.createdAt == s.clock
    ensures Later(s, SetJob(s, j, job))
    ensures OneLivePerRun(s) && !RunIsLive(s, job.row.run) ==> OneLivePerRun(SetJob(s, j, job))
  {
    forall k | k in s.jobs ensures JobMoves(s.jobs[k], SetJob(s, j, job).jobs[k]) {
    }
  }

  lemma AddedJobKeepsStages(s: State, j: JobId, job: Job)
    requires Inv(s) && j !in s.jobs && job.row.status == Queued
    ensures var s' := SetJob(s, j, job);
      (forall w: WorkerId :: StageOk(s', w)) && (forall k :: k in s'.jobs ==> Attended(s', k))
  {
    var s' := SetJob(s, j, job);
    forall w: WorkerId ensures StageOk(s', w) {
      AddedJobKeepsStage(s, j, job, w);
    }
    forall k | k in s'.jobs ensures Attended(s', k) {
      assert k in s.jobs ==> Attended(s, k);
    }
  }

  lemma QueueKeepsInv(s: State, j: JobId, job: Job)
    requires Inv(s) && j !in s.jobs && !RunIsLive(s, job.row.run)
    requires job == Job(job.row, [], false, false, false, false) && SchemaAllows(job.row)
    requires job.row == Inserted(job.row.run, job.row.parts, job.row.confirmation, s.clock)
    ensures Good(s, SetJob(s, j, job))
  {
    var s' := SetJob(s, j, job);
    AddedJobIsLater(s, j, job);
    AddedJobKeepsStages(s, j, job);
  }

  lemma CancelledJob(job: Job, after: Job, clock: int, phrase: RunId -> string)
    requires JobOk(job, clock, phrase) && job.row.status == Queued
    requires after == job.(row := SettleCancelUpdate(job.row, clock))
      || after == job.(row := RequestCancelUpdate(job.row), cancelRecorded := true)
    ensures JobMoves(job, after) && JobOk(after, clock, phrase) && after.row.status != Running
  {
  }

  /** A job nobody is busy on moves: the workers and the other jobs keep what is known of them. */
  lemma UnclaimedJobStep(s: State, j: JobId, after: Job)
    requires Inv(s) && j in s.jobs && JobMoves(s.jobs[j], after) && JobOk(after, s.clock, s.phrase)
    requires after.row.status != Running && forall v: WorkerId :: !BusyOn(s, v, j)
    ensures Good(s, SetJob(s, j, after))
  {
    var s' := SetJob(s, j, after);
    OneJobMovedIsLater(s, s', j);
    forall w: WorkerId ensures StageOk(s', w) {
      StageIsOk(s, w);
      OtherStageStaysOk(s, s', j, w);
    }
    StaysAttended(s, j, after);
  }

  lemma StaysAttended(s: State, j: JobId, after: Job)
    requires Inv(s) && j in s.jobs && after.row.status != Running
    ensures var s' := SetJob(s, j, after); forall k :: k in s'.jobs ==> Attended(s', k)
  {
    var s' := SetJob(s, j, after);
    forall k | k in s'.jobs ensures Attended(s', k) {
      assert Attended(s, k);
    }
  }

  lemma CancelKeepsInv(s: State, j: JobId, after: Job)
    requires Inv(s) && j in s.jobs && s.jobs[j].row.status == Queued
    requires after == s.jobs[j].(row := SettleCancelUpdate(s.jobs[j].row, s.clock))
      || after == s.jobs[j].(row := RequestCancelUpdate(s.jobs[j].row), cancelRecorded := true)
    ensures Good(s, SetJob(s, j, after))
  {
    BusyWorkerClaimedIt(s, j);
    CancelledJob(s.jobs[j], after, s.clock, s.phrase);
    UnclaimedJobStep(s, j, after);
  }

  lemma ClockKeepsInv(s: State, seconds: nat)
    requires Inv(s)
    ensures Good(s, s.(clock := s.clock + seconds))
  {
    var s' := s.(clock := s.clock + seconds);
    forall w: WorkerId ensures StageOk(s', w) {
      assert StageOk(s, w);
    }
    forall k | k in s'.jobs ensures Attended(s', k) {
      assert Attended(s, k);
    }
  }

  /** An action by an operator or the clock. */
  lemma OperatorKeepsInv(s: State, a: Action)
    requires Inv(s) && !a.ByWorker?
    ensures Good(s, Apply(s, a))
  {
    match a
    case Advance(seconds) => ClockKeepsInv(s, seconds);
    case Queue(j, run, parts, confirmation) => QueuingKeepsInv(s, j, run, parts, confirmation);
    case RequestCancel(j) => RequestingKeepsInv(s, j);
    case SettleCancel(j) => SettlingKeepsInv(s, j);
  }

  lemma QueuingKeepsInv(s: State, j: JobId, run: RunId, parts: set<Part>, confirmation: string)
    requires Inv(s)
    ensures Good(s, Apply(s, Queue(j, run, parts, confirmation)))
  {
    var row := Inserted(run, parts, confirmation, s.clock);
    if j !in s.jobs && !RunIsLive(s, run) && SchemaAllows(row) {
      QueueKeepsInv(s, j, Job(row, [], false, false, false, false));
    } else {
      LaterIsReflexive(s);
    }
  }

  lemma RequestingKeepsInv(s: State, j: JobId)
    requires Inv(s)
    ensures Good(s, Apply(s, RequestCancel(j)))
  {
    if j in s.jobs && s.jobs[j].row.status == Queued {
      CancelKeepsInv(s, j, s.jobs[j].(row := RequestCancelUpdate(s.jobs[j].row), cancelRecorded := true));
    } else {
      LaterIsReflexive(s);
    }
  }

  lemma SettlingKeepsInv(s: State, j: JobId)
    requires Inv(s)
    ensures Good(s, Apply(s, SettleCancel(j)))
  {
    if j in s.jobs && s.jobs[j].row.status == Queued {
      CancelKeepsInv(s, j, s.jobs[j].(row := SettleCancelUpdate(s.jobs[j].row, s.clock)));
    } else {
      LaterIsReflexive(s);
      NothingToSettle(s, j);
    }
  }

  lemma NothingToSettle(s: State, j: JobId)
    requires j in s.jobs ==> s.jobs[j].row.status != Queued
    ensures Apply(s, SettleCancel(j)) == s
  {
    if j in s.jobs {
      assert s.jobs == s.jobs[j := s.jobs[j]];
    }
  }

  lemma ActionKeepsInv(s: State, a: Action)
    requires Inv(s)
    ensures Good(s, Apply(s, a))
  {
    if a.ByWorker? {
      WorkerKeepsInv(s, a.worker, a.move);
    } else {
      OperatorKeepsInv(s, a);
    }
  }

  /** From a good state a run leads to good states and only moves jobs forward. */
  lemma {:induction false} RunsStayGood(s: State, run: seq<Action>)
    requires Inv(s)
    ensures Good(s, Exec(s, run))
  {
    if run != [] {
      var before := Exec(s, run[..|run| - 1]);
      RunsStayGood(s, run[..|run| - 1]);
      ActionKeepsInv(before, run[|run| - 1]);
      LaterComposes(s, before, Exec(s, run));
    }
  }

  lemma {:induction false} ExecAppends(s: State, first: seq<Action>, second: seq<Action>)
    ensures Exec(s, first + second) == Exec(Exec(s, first), second)
  {
    if second == [] {
      assert first + second == first;
    } else {
      var whole := first + second;
      assert whole[..|whole| - 1] == first + second[..|second| - 1];
      ExecAppends(s, first, second[..|second| - 1]);
    }
  }

  lemma LaterComposes(s: State, mid: State, end: State)
    requires Later(s, mid) && Later(mid, end)
    ensures Later(s, end)
  {
    forall j | j in s.jobs ensures j in end.jobs && JobMoves(s.jobs[j], end.jobs[j]) {
      assert j in mid.jobs && JobMoves(s.jobs[j], mid.jobs[j]) && JobMoves(mid.jobs[j], end.jobs[j]);
    }
    forall j | j in end.jobs && j !in s.jobs ensures end.jobs[j].row.createdAt >= s.clock {
      if j in mid.jobs {
        assert JobMoves(mid.jobs[j], end.jobs[j]);
      }
    }
  }

  lemma LaterIsReflexive(s: State)
    ensures Later(s, s)
  {
    forall j | j in s.jobs ensures JobMoves(s.jobs[j], s.jobs[j]) {
    }
  }

  /** What one worker waits on changes only by its own steps. */
  lemma OthersLeaveTheStage(s: State, a: Action, w: WorkerId)
    requires !(a.ByWorker? && a.worker == w)
    ensures StageOf(Apply(s, a), w) == StageOf(s, w)
  {
    if a.ByWorker? {
      match StageOf(s, a.worker)
      case Idle =>
      case Sweeping(seen, next) => SweepLeavesStages(s, a.worker, seen, next, a.move, w);
      case Serving(queue) =>
      case Busy(j, task, queue) =>
        if j in s.jobs {
          BusyLeavesStages(s, a.worker, j, task, queue, a.move, w);
        }
    }
  }

  lemma SweepLeavesStages(s: State, v: WorkerId, seen: seq<(JobId, Status)>, next: nat, m: Move, w: WorkerId)
    requires v != w
    ensures StageOf(SweepStep(s, v, seen, next, m), w) == StageOf(s, w)
  {
  }

  lemma BusyLeavesStages(s: State, v: WorkerId, j: JobId, task: Task, queue: seq<JobId>, m: Move, w: WorkerId)
    requires v != w && j in s.jobs
    ensures StageOf(BusyStep(s, v, j, task, queue, m), w) == StageOf(s, w)
  {
  }

  /** And so does the trail of the job it is busy on. */
  lemma OthersLeaveTheTrail(s: State, a: Action, w: WorkerId, j: JobId)
    requires Inv(s) && BusyOn(s, w, j) && j in s.jobs && !(a.ByWorker? && a.worker == w)
    ensures j in Apply(s, a).jobs && Apply(s, a).jobs[j].trail == s.jobs[j].trail
  {
    BusyJobIsOk(s, w);
    if a.ByWorker? {
      match StageOf(s, a.worker)
      case Idle =>
      case Sweeping(seen, next) =>
        SweepingWorkerSteps(s, a.worker, a.move);
        SweepLeavesTheTrail(s, a.worker, seen, next, a.move, j);
      case Serving(queue) =>
        ServingWorkerSteps(s, a.worker, a.move);
        ServeLeavesTheTrail(s, a.worker, queue, a.move, j);
      case Busy(k, _, _) =>
        BusyWorkerClaimedIt(s, j);
        BusyJobIsOk(s, a.worker);
        BusyElsewhere(s, a.worker, a.move, j);
    } else {
      OperatorsLeaveTheTrail(s, a, j);
    }
  }

  lemma SweepLeavesTheTrail(s: State, v: WorkerId, seen: seq<(JobId, Status)>, next: nat, m: Move, j: JobId)
    requires j in s.jobs
    ensures var t := SweepStep(s, v, seen, next, m); j in t.jobs && t.jobs[j].trail == s.jobs[j].trail
  {
  }

  lemma ServeLeavesTheTrail(s: State, v: WorkerId, queue: seq<JobId>, m: Move, j: JobId)
    requires j in s.jobs && s.jobs[j].row.status != Queued
    ensures var t := ServeStep(s, v, queue, m); j in t.jobs && t.jobs[j] == s.jobs[j]
  {
  }

  lemma OperatorsLeaveTheTrail(s: State, a: Action, j: JobId)
    requires !a.ByWorker? && j in s.jobs
    ensures j in Apply(s, a).jobs && Apply(s, a).jobs[j].trail == s.jobs[j].trail
  {
  }

  lemma BusyElsewhere(s: State, v: WorkerId, move: Move, j: JobId)
    requires StageOf(s, v).Busy? && StageOf(s, v).job != j && StageOf(s, v).job in s.jobs && j in s.jobs
    ensures var t := Apply(s, ByWorker(v, move)); j in t.jobs && t.jobs[j] == s.jobs[j]
  {
    var Busy(k, task, queue) := StageOf(s, v);
    BusyWorkerSteps(s, v, move);
    BusyStepElsewhere(s, v, k, task, queue, move, j);
  }

  lemma BusyStepElsewhere(s: State, v: WorkerId, k: JobId, task: Task, queue: seq<JobId>, move: Move, j: JobId)
    requires k in s.jobs && j in s.jobs && j != k
    ensures var t := BusyStep(s, v, k, task, queue, move); j in t.jobs && t.jobs[j] == s.jobs[j]
  {
  }

  /** The invariant holds after every run of the platform. */
  lemma EveryRunKeepsInv(phrase: RunId -> string, run: seq<Action>)
    ensures Inv(Exec(Start(phrase), run)) && Exec(Start(phrase), run).phrase == phrase
  {
    RunsStayGood(Start(phrase), run);
  }

  /** What it says about one job. */
  lemma EveryJobIsOk(phrase: RunId -> string, run: seq<Action>, j: JobId)
    requires j in Exec(Start(phrase), run).jobs
    ensures JobOk(Exec(Start(phrase), run).jobs[j], Exec(Start(phrase), run).clock, phrase)
  {
    EveryRunKeepsInv(phrase, run);
  }
}
