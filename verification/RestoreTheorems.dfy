/** What the restore protocol guarantees, for every run of the platform. */
module RestoreTheorems {
  import opened Options
  import opened RestoreJobs
  import opened RestoreProtocol
  import opened RestoreInvariant

  // ---- safety: the trail of every job in every reachable state

  /**
   The first write comes after its whole preamble, once, by one worker: that worker claimed the job,
   the phrase it read is the run's own, the preview was priced, restorable and offered the media,
   and exactly one safety backup, complete, was taken for the job before.
   */
  lemma WritesAreGuarded(phrase: RunId -> string, run: seq<Action>, j: JobId, i: nat)
    requires j in Exec(Start(phrase), run).jobs
    requires i < |Exec(Start(phrase), run).jobs[j].trail|
    requires var e := Exec(Start(phrase), run).jobs[j].trail[i]; e.WriteBegan? || e.Put?
    ensures var job := Exec(Start(phrase), run).jobs[j];
      var trail, w := job.trail, job.trail[i].worker;
      && i >= 4
      && trail[0] == Claimed(w)
      && trail[1] == PhraseRead(w, phrase(job.row.run))
      && trail[2].Priced? && trail[2].worker == w && PricedWell(trail) && OffersMedia(trail)
      && trail[3].SafetyTaken? && trail[3].worker == w && trail[3].safety.complete
      && trail[4] == WriteBegan(w)
      && (forall k :: 0 <= k < |trail| && trail[k].WriteBegan? ==> k == 4)
      && (forall k :: 0 <= k < |trail| && trail[k].SafetyTaken? ==> k == 3)
      && (forall k :: 0 <= k < |trail| && trail[k].Claimed? ==> k == 0)
  {
    EveryJobIsOk(phrase, run, j);
    var job := Exec(Start(phrase), run).jobs[j];
    assert job.trail[i].worker == job.trail[0].worker;
  }

  predicate Wrote(trail: seq<Event>) {
    exists i :: 0 <= i < |trail| && (trail[i].WriteBegan? || trail[i].Put?)
  }

  /** A check that did not pass: another phrase, a preview without a price, a partial safety copy. */
  predicate CheckFailed(e: Event, expected: string) {
    match e
    case PhraseRead(_, given) => given != expected
    case Priced(_, preview) => preview.unpriced || !preview.restorable
    case SafetyTaken(_, safety) => !safety.complete
    case _ => false
  }

  lemma ShortTrailWroteNothing(job: Job, clock: int, phrase: RunId -> string)
    requires JobOk(job, clock, phrase)
    ensures Wrote(job.trail) <==> |job.trail| > 4
  {
    if |job.trail| > 4 {
      assert job.trail[4].WriteBegan?;
    }
  }

  /** The terminal words of a row mean what the panel says they mean. */
  lemma TerminalStatesMeanWhatTheySay(phrase: RunId -> string, run: seq<Action>, j: JobId)
    requires j in Exec(Start(phrase), run).jobs
    ensures var Job(row, trail, _, swept, _, _) := Exec(Start(phrase), run).jobs[j];
      && (row.status == Queued ==> trail == [])
      && (row.status == Aborted ==> !Wrote(trail))
      && (row.status == Failed && !swept ==> !Wrote(trail))
      && (row.status == Succeeded ==>
            && row.safety != None && HasSafety(trail, row.safety.value) && PricedWell(trail)
            && row.confirmation == phrase(row.run)
            && (Wrote(trail) <==> OffersMedia(trail)))
  {
    EveryJobIsOk(phrase, run, j);
    ShortTrailWroteNothing(Exec(Start(phrase), run).jobs[j], Exec(Start(phrase), run).clock, phrase);
  }

  /**
   The operator's selection is not looked at, so a restore that succeeded has written media only if
   media was selected exactly when it was selected, or the preview did not offer any.
   */
  lemma WritesStayInTheSelectionIff(phrase: RunId -> string, run: seq<Action>, j: JobId)
    requires j in Exec(Start(phrase), run).jobs && Exec(Start(phrase), run).jobs[j].row.status == Succeeded
    ensures var Job(row, trail, _, _, _, _) := Exec(Start(phrase), run).jobs[j];
      (Wrote(trail) ==> Media in row.parts) <==> Media in row.parts || !OffersMedia(trail)
  {
    TerminalStatesMeanWhatTheySay(phrase, run, j);
  }

  // ---- refusing

  /** The job was refused: nothing was written for it, and nobody is on it but to say so. */
  ghost predicate IsRefused(s: State, j: JobId, trail: seq<Event>) {
    && j in s.jobs && s.jobs[j].trail == trail && trail != []
    && s.jobs[j].row.status != Succeeded
    && forall v: WorkerId :: BusyOn(s, v, j) ==> StageOf(s, v).task == Refusing
  }

  lemma OwnStepKeepsRefusal(s: State, v: WorkerId, m: Move, j: JobId, trail: seq<Event>)
    requires IsRefused(s, j, trail) && BusyOn(s, v, j)
    ensures var t := Apply(s, ByWorker(v, m));
      && j in t.jobs && t.jobs[j].trail == trail && t.jobs[j].row.status != Succeeded
      && (BusyOn(t, v, j) ==> StageOf(t, v).task == Refusing)
  {
    BusyWorkerSteps(s, v, m);
  }

  lemma NoMoreQueued(s: State, j: JobId, trail: seq<Event>)
    requires Inv(s) && IsRefused(s, j, trail)
    ensures s.jobs[j].row.status != Queued
  {
    assert JobOk(s.jobs[j], s.clock, s.phrase);
  }

  lemma WorkerStepsByStage(s: State, v: WorkerId, m: Move)
    ensures StageOf(s, v).Idle? ==> Apply(s, ByWorker(v, m)).jobs == s.jobs && !StageOf(Apply(s, ByWorker(v, m)), v).Busy?
    ensures StageOf(s, v).Sweeping? ==>
      Apply(s, ByWorker(v, m)) == SweepStep(s, v, StageOf(s, v).seen, StageOf(s, v).next, m)
    ensures StageOf(s, v).Serving? ==> Apply(s, ByWorker(v, m)) == ServeStep(s, v, StageOf(s, v).queue, m)
  {
  }

  /** A worker that is not on the job does not get on it: it is not queued any more. */
  lemma OtherStepKeepsRefusal(s: State, v: WorkerId, m: Move, j: JobId, trail: seq<Event>)
    requires Inv(s) && IsRefused(s, j, trail) && !BusyOn(s, v, j)
    ensures var t := Apply(s, ByWorker(v, m));
      j in t.jobs && t.jobs[j].trail == trail && t.jobs[j].row.status != Succeeded && !BusyOn(t, v, j)
  {
    NoMoreQueued(s, j, trail);
    StageIsOk(s, v);
    WorkerStepsByStage(s, v, m);
    match StageOf(s, v)
    case Idle =>
    case Sweeping(seen, next) => SweepKeepsRefusal(s, v, seen, next, m, j);
    case Serving(queue) => ServeKeepsRefusal(s, v, queue, m, j);
    case Busy(k, task, queue) =>
      BusyElsewhere(s, v, m, j);
      StaysOffTheJob(s, v, m, j);
  }

  lemma SweepKeepsRefusal(s: State, v: WorkerId, seen: seq<(JobId, Status)>, next: nat, m: Move, j: JobId)
    requires j in s.jobs && s.jobs[j].row.status != Succeeded
    ensures var t := SweepStep(s, v, seen, next, m);
      j in t.jobs && t.jobs[j].trail == s.jobs[j].trail && t.jobs[j].row.status != Succeeded
      && (StageOf(s, v).Sweeping? ==> !BusyOn(t, v, j))
  {
  }

  lemma ServeKeepsRefusal(s: State, v: WorkerId, queue: seq<JobId>, m: Move, j: JobId)
    requires j in s.jobs && s.jobs[j].row.status != Succeeded && s.jobs[j].row.status != Queued
    ensures var t := ServeStep(s, v, queue, m);
      j in t.jobs && t.jobs[j] == s.jobs[j] && (StageOf(s, v).Serving? ==> !BusyOn(t, v, j))
  {
  }

  lemma StaysOffTheJob(s: State, v: WorkerId, m: Move, j: JobId)
    requires StageOf(s, v).Busy? && StageOf(s, v).job != j && StageOf(s, v).job in s.jobs
    ensures !BusyOn(Apply(s, ByWorker(v, m)), v, j)
  {
    BusyWorkerSteps(s, v, m);
  }

  lemma StepKeepsRefusal(s: State, a: Action, j: JobId, trail: seq<Event>)
    requires Inv(s) && IsRefused(s, j, trail)
    ensures IsRefused(Apply(s, a), j, trail)
  {
    if a.ByWorker? {
      if BusyOn(s, a.worker, j) {
        OwnStepKeepsRefusal(s, a.worker, a.move, j, trail);
      } else {
        OtherStepKeepsRefusal(s, a.worker, a.move, j, trail);
      }
    } else {
      OperatorsKeepRefusal(s, a, j, trail);
    }
    forall v: WorkerId | BusyOn(Apply(s, a), v, j)
      ensures StageOf(Apply(s, a), v).task == Refusing
    {
      if !(a.ByWorker? && a.worker == v) {
        OthersLeaveTheStage(s, a, v);
      }
    }
  }

  lemma OperatorsKeepRefusal(s: State, a: Action, j: JobId, trail: seq<Event>)
    requires !a.ByWorker? && IsRefused(s, j, trail)
    ensures j in Apply(s, a).jobs && Apply(s, a).jobs[j].trail == trail && Apply(s, a).jobs[j].row.status != Succeeded
  {
  }

  lemma {:induction false} RunKeepsRefusal(s: State, more: seq<Action>, j: JobId, trail: seq<Event>)
    requires Inv(s) && IsRefused(s, j, trail)
    ensures IsRefused(Exec(s, more), j, trail)
  {
    if more != [] {
      RunKeepsRefusal(s, more[..|more| - 1], j, trail);
      RunsStayGood(s, more[..|more| - 1]);
      StepKeepsRefusal(Exec(s, more[..|more| - 1]), more[|more| - 1], j, trail);
    }
  }

  /**
   Once a worker has decided to refuse the job it claimed, for whatever reason (the phrase, the
   preview, a safety backup that was partial or could not be taken, an index that could not be read),
   the job is never written for, goes no further and never succeeds, whoever else does what.
   */
  lemma RefusalIsFinal(phrase: RunId -> string, run: seq<Action>, more: seq<Action>, w: WorkerId, j: JobId)
    requires var s := Exec(Start(phrase), run); BusyOn(s, w, j) && StageOf(s, w).task == Refusing
    ensures j in Exec(Start(phrase), run).jobs && j in Exec(Start(phrase), run + more).jobs
    ensures var job, later := Exec(Start(phrase), run).jobs[j], Exec(Start(phrase), run + more).jobs[j];
      later.trail == job.trail && !Wrote(later.trail) && later.row.status != Succeeded
  {
    var s := Exec(Start(phrase), run);
    EveryRunKeepsInv(phrase, run);
    BusyJobIsOk(s, w);
    RefusedByOne(s, w, j);
    RunKeepsRefusal(s, more, j, s.jobs[j].trail);
    ExecAppends(Start(phrase), run, more);
    EveryJobIsOk(phrase, run, j);
    ShortTrailWroteNothing(s.jobs[j], s.clock, phrase);
  }

  lemma RefusedByOne(s: State, w: WorkerId, j: JobId)
    requires Inv(s) && BusyOn(s, w, j) && StageOf(s, w).task == Refusing && j in s.jobs
    ensures IsRefused(s, j, s.jobs[j].trail)
  {
    StageIsOk(s, w);
    BusyWorkerClaimedIt(s, j);
  }

  // ---- what one action, and a whole run, does to a job

  /** Terminal is for ever, and a trail is only ever added to. */
  lemma TerminalIsForEver(phrase: RunId -> string, run: seq<Action>, more: seq<Action>, j: JobId)
    requires j in Exec(Start(phrase), run).jobs
    ensures var before, after := Exec(Start(phrase), run).jobs[j], Exec(Start(phrase), run + more).jobs;
      && j in after && before.trail <= after[j].trail
      && (Terminal(before.row) ==> after[j].row == before.row)
  {
    EveryRunKeepsInv(phrase, run);
    RunsStayGood(Exec(Start(phrase), run), more);
    ExecAppends(Start(phrase), run, more);
  }

  /** A job whose phrase, preview or safety backup failed its check never goes any further. */
  lemma FailedCheckIsTheLastEvent(phrase: RunId -> string, run: seq<Action>, more: seq<Action>,
                                  j: JobId, k: nat)
    requires j in Exec(Start(phrase), run).jobs
    requires var job := Exec(Start(phrase), run).jobs[j];
      k < |job.trail| && CheckFailed(job.trail[k], phrase(job.row.run))
    ensures j in Exec(Start(phrase), run + more).jobs
    ensures var job, later := Exec(Start(phrase), run).jobs[j], Exec(Start(phrase), run + more).jobs[j];
      later.trail == job.trail && |job.trail| == k + 1 && !Wrote(later.trail)
      && later.row.status != Succeeded
  {
    TerminalIsForEver(phrase, run, more, j);
    EveryJobIsOk(phrase, run + more, j);
    EveryRunKeepsInv(phrase, run);
    var s := Exec(Start(phrase), run + more);
    var later := s.jobs[j];
    assert later.trail[k] == Exec(Start(phrase), run).jobs[j].trail[k];
    RunsStayGood(Exec(Start(phrase), run), more);
    ExecAppends(Start(phrase), run, more);
    ShortTrailWroteNothing(later, s.clock, phrase);
  }

  // ---- cancelling

  /**
   A recorded cancel is always honoured before the first write, and such a job never succeeds. It
   ends aborted exactly when neither its abort statement was missed nor a sweep got there first.
   */
  lemma RecordedCancelIsHonoured(phrase: RunId -> string, run: seq<Action>, j: JobId)
    requires j in Exec(Start(phrase), run).jobs && Exec(Start(phrase), run).jobs[j].cancelRecorded
    ensures var job := Exec(Start(phrase), run).jobs[j];
      && !Wrote(job.trail) && job.row.status != Succeeded
      && (Terminal(job.row) ==> (job.row.status == Aborted <==> !job.abortMissed && !job.swept))
  {
    EveryJobIsOk(phrase, run, j);
    ShortTrailWroteNothing(Exec(Start(phrase), run).jobs[j], Exec(Start(phrase), run).clock, phrase);
  }

  /**
   A cancel reaches a job only while it is queued: afterwards the request changes nothing. So the
   worker's own check after the claim never finds one, and the branch behind it never runs.
   */
  lemma SecondCancelCheckNeverFires(phrase: RunId -> string, run: seq<Action>, w: WorkerId, j: JobId)
    requires j in Exec(Start(phrase), run).jobs
    ensures var s := Exec(Start(phrase), run);
      && (s.jobs[j].trail != [] ==>
            Apply(Apply(s, RequestCancel(j)), SettleCancel(j)) == s)
      && (BusyOn(s, w, j) && StageOf(s, w).task == CancelCheck ==> !s.jobs[j].row.cancelRequested)
      && (BusyOn(s, w, j) ==> StageOf(s, w).task != CheckAbort)
  {
    var s := Exec(Start(phrase), run);
    EveryRunKeepsInv(phrase, run);
    StageIsOk(s, w);
    EveryJobIsOk(phrase, run, j);
    if s.jobs[j].trail != [] {
      NoCancelAnyMore(s, j);
    }
  }

  lemma NoCancelAnyMore(s: State, j: JobId)
    requires j in s.jobs && s.jobs[j].row.status != Queued
    ensures Apply(s, RequestCancel(j)) == s && Apply(s, SettleCancel(j)) == s
  {
    NothingToSettle(s, j);
  }

  // ---- exits

  /** A running row has exactly its claimer on it, unless an exit or a crash left it behind. */
  lemma RunningRowsAreAttendedOrOrphaned(phrase: RunId -> string, run: seq<Action>, j: JobId)
    requires j in Exec(Start(phrase), run).jobs
    requires Exec(Start(phrase), run).jobs[j].row.status == Running
    ensures var s := Exec(Start(phrase), run);
      s.jobs[j].orphaned <==> forall w: WorkerId :: !BusyOn(s, w, j)
  {
    var s := Exec(Start(phrase), run);
    EveryRunKeepsInv(phrase, run);
    assert Attended(s, j);
    assert JobOk(s.jobs[j], s.clock, phrase);
    forall w: WorkerId ensures BusyOn(s, w, j) ==> !s.jobs[j].orphaned {
      assert StageOk(s, w);
    }
  }

  // ---- one restore of a run at a time

  /**
   Two workers are at work on the same run at once only when a sweep failed the row of one of them
   while it was working, which takes a job older than the sweep's limit.
   */
  lemma TwoWorkersOnOneRunMeansASweep(phrase: RunId -> string, run: seq<Action>,
                                      v: WorkerId, w: WorkerId, i: JobId, j: JobId)
    requires var s := Exec(Start(phrase), run);
      && v != w && BusyOn(s, v, i) && BusyOn(s, w, j) && i in s.jobs && j in s.jobs
      && StageOf(s, v).task != Refusing && StageOf(s, w).task != Refusing
      && s.jobs[i].row.run == s.jobs[j].row.run
    ensures var s := Exec(Start(phrase), run);
      exists k :: k in {i, j} && s.jobs[k].swept && s.jobs[k].row.createdAt < s.clock - MAX_AGE
  {
    var s := Exec(Start(phrase), run);
    EveryRunKeepsInv(phrase, run);
    assert StageOk(s, v) && StageOk(s, w);
    assert JobOk(s.jobs[i], s.clock, phrase) && JobOk(s.jobs[j], s.clock, phrase);
    assert s.jobs[i].swept || s.jobs[j].swept;
  }

  /**
   While a worker is at work on a run, the table admits a second restore of that run exactly when a
   sweep has failed the first one under its worker.
   */
  lemma SecondRestoreIsAdmittedIffSwept(phrase: RunId -> string, run: seq<Action>, w: WorkerId,
                                        j: JobId, k: JobId, parts: set<Part>, confirmation: string)
    requires var s := Exec(Start(phrase), run);
      && j in s.jobs && BusyOn(s, w, j) && StageOf(s, w).task != Refusing && k !in s.jobs
      && (forall i :: i in s.jobs && i != j && s.jobs[i].row.run == s.jobs[j].row.run ==>
            Terminal(s.jobs[i].row))
    requires 1 <= |parts| <= 5
    ensures var s := Exec(Start(phrase), run);
      k in Apply(s, Queue(k, s.jobs[j].row.run, parts, confirmation)).jobs <==> s.jobs[j].swept
  {
    var s := Exec(Start(phrase), run);
    EveryRunKeepsInv(phrase, run);
    assert StageOk(s, w);
    assert JobOk(s.jobs[j], s.clock, phrase);
    if !s.jobs[j].swept {
      assert Live(s.jobs[j].row);
      assert RunIsLive(s, s.jobs[j].row.run);
    }
  }
}
