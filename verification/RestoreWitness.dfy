/**
 A run in which two workers write the same run's objects at once: the first restore is swept while
 its worker is still writing, the table then admits a second one, and a second worker claims it.
 */
module RestoreWitness {
  import opened Options
  import opened RestoreJobs
  import opened RestoreProtocol
  import opened RestoreInvariant

  const GOOD := Preview(false, true, true)

  /** Worker `w` is at `task` of job `j`, after `depth` events, and nothing stands in its way. */
  ghost predicate At(s: State, w: WorkerId, j: JobId, task: Task, depth: nat) {
    && StageOf(s, w) == Busy(j, task, []) && j in s.jobs
    && s.jobs[j].row.status == Running && !s.jobs[j].row.cancelRequested
    && s.jobs[j].row.confirmation == s.phrase(s.jobs[j].row.run)
    && |s.jobs[j].trail| == depth && (depth > 2 ==> OffersMedia(s.jobs[j].trail))
  }

  /** Nothing but worker `w` and job `j` moved. */
  ghost predicate Elsewhere(s: State, s': State, w: WorkerId, j: JobId) {
    && s'.clock == s.clock && s'.phrase == s.phrase
    && j in s.jobs && j in s'.jobs
    && s'.jobs == s.jobs[j := s'.jobs[j]] && s'.workers == s.workers[w := StageOf(s', w)]
    && s'.jobs[j].row.createdAt == s.jobs[j].row.createdAt && s'.jobs[j].row.run == s.jobs[j].row.run
    && s'.jobs[j].row.parts == s.jobs[j].row.parts
  }

  ghost predicate Waits(s: State, w: WorkerId, j: JobId) {
    && StageOf(s, w) == Serving([j]) && j in s.jobs && s.jobs[j].trail == []
    && s.jobs[j].row.status == Queued && !s.jobs[j].row.cancelRequested
    && s.jobs[j].row.confirmation == s.phrase(s.jobs[j].row.run)
  }

  lemma Claims(s: State, w: WorkerId, j: JobId)
    requires Waits(s, w, j)
    ensures var s' := Apply(s, ByWorker(w, Proceed));
      At(s', w, j, CancelCheck, 1) && Elsewhere(s, s', w, j)
  {
    assert [j][1..] == [];
  }

  lemma ChecksCancel(s: State, w: WorkerId, j: JobId)
    requires At(s, w, j, CancelCheck, 1)
    ensures var s' := Apply(s, ByWorker(w, Proceed));
      At(s', w, j, Planning, 1) && Elsewhere(s, s', w, j)
  {
    assert s.jobs == s.jobs[j := s.jobs[j]];
  }

  lemma ChecksPhrase(s: State, w: WorkerId, j: JobId)
    requires At(s, w, j, Planning, 1)
    ensures var s' := Apply(s, ByWorker(w, Proceed));
      At(s', w, j, Pricing, 2) && Elsewhere(s, s', w, j)
  {
  }

  lemma Prices(s: State, w: WorkerId, j: JobId)
    requires At(s, w, j, Pricing, 2)
    ensures var s' := Apply(s, ByWorker(w, PreviewBuilt(GOOD)));
      At(s', w, j, SafetyCopy, 3) && Elsewhere(s, s', w, j)
  {
  }

  lemma TakesSafety(s: State, w: WorkerId, j: JobId)
    requires At(s, w, j, SafetyCopy, 3)
    ensures var s' := Apply(s, ByWorker(w, SafetyEnded(Some(Safety(w, true)))));
      At(s', w, j, OpeningMedia(w), 4) && Elsewhere(s, s', w, j)
  {
  }

  lemma OpensMedia(s: State, w: WorkerId, j: JobId)
    requires At(s, w, j, OpeningMedia(w), 4)
    ensures var s' := Apply(s, ByWorker(w, IndexRead(Some(1))));
      At(s', w, j, Writing(w, 1), 5) && Elsewhere(s, s', w, j)
  {
  }

  lemma ThreeSteps(s: State, a: Action, b: Action, c: Action)
    ensures Exec(s, [a, b, c]) == Apply(Apply(Apply(s, a), b), c)
  {
    assert [a, b, c][..2] == [a, b] && [a, b][..1] == [a] && [a][..0] == [];
    assert Exec(s, [a]) == Apply(s, a);
    assert Exec(s, [a, b]) == Apply(Exec(s, [a]), b);
  }

  function ToPricing(w: WorkerId): seq<Action> {
    [ByWorker(w, Proceed), ByWorker(w, Proceed), ByWorker(w, Proceed)]
  }

  function ToWriting(w: WorkerId): seq<Action> {
    [ByWorker(w, PreviewBuilt(GOOD)), ByWorker(w, SafetyEnded(Some(Safety(w, true)))),
     ByWorker(w, IndexRead(Some(1)))]
  }

  lemma ReachesPricing(s: State, w: WorkerId, j: JobId)
    requires Waits(s, w, j)
    ensures At(Exec(s, ToPricing(w)), w, j, Pricing, 2) && Elsewhere(s, Exec(s, ToPricing(w)), w, j)
  {
    var go := ByWorker(w, Proceed);
    ThreeSteps(s, go, go, go);
    Claims(s, w, j);
    ChecksCancel(Apply(s, go), w, j);
    ChecksPhrase(Apply(Apply(s, go), go), w, j);
  }

  lemma ReachesWriting(s: State, w: WorkerId, j: JobId)
    requires At(s, w, j, Pricing, 2)
    ensures At(Exec(s, ToWriting(w)), w, j, Writing(w, 1), 5) && Elsewhere(s, Exec(s, ToWriting(w)), w, j)
  {
    var a, b, c := ToWriting(w)[0], ToWriting(w)[1], ToWriting(w)[2];
    ThreeSteps(s, a, b, c);
    Prices(s, w, j);
    TakesSafety(Apply(s, a), w, j);
    OpensMedia(Apply(Apply(s, a), b), w, j);
  }

  lemma Writes(s: State, w: WorkerId, j: JobId)
    requires Waits(s, w, j)
    ensures var s' := Exec(s, ToPricing(w) + ToWriting(w));
      At(s', w, j, Writing(w, 1), 5) && Elsewhere(s, s', w, j)
  {
    ReachesPricing(s, w, j);
    ReachesWriting(Exec(s, ToPricing(w)), w, j);
    ExecAppends(s, ToPricing(w), ToWriting(w));
  }

  /** The first restore of run 0, queued, read by worker 1 and about to be claimed. */
  function First(phrase: RunId -> string, parts: set<Part>): seq<Action> {
    [Queue(0, 0, parts, phrase(0)), ByWorker(1, BeginTick([])), ByWorker(1, List([0]))]
  }

  lemma FirstWaits(phrase: RunId -> string, parts: set<Part>)
    requires 1 <= |parts| <= 5
    ensures var s := Exec(Start(phrase), First(phrase, parts));
      && Waits(s, 1, 0) && s.jobs.Keys == {0} && s.clock == 0 && StageOf(s, 2) == Idle
      && s.jobs[0].row.run == 0 && s.jobs[0].row.createdAt == 0 && s.phrase == phrase
      && s.jobs[0].row.parts == parts
  {
    var a, b, c := First(phrase, parts)[0], First(phrase, parts)[1], First(phrase, parts)[2];
    ThreeSteps(Start(phrase), a, b, c);
    var s1 := Apply(Start(phrase), a);
    FirstQueued(phrase, parts);
    assert IsSweepRead(s1, []);
    var s2 := Apply(s1, b);
    assert s2.jobs == s1.jobs && StageOf(s2, 1) == Sweeping([], 0);
    assert IsQueueRead(s2, [0]);
  }

  lemma FirstQueued(phrase: RunId -> string, parts: set<Part>)
    requires 1 <= |parts| <= 5
    ensures var s := Apply(Start(phrase), First(phrase, parts)[0]);
      && s.jobs == map[0 := Job(Inserted(0, parts, phrase(0), 0), [], false, false, false, false)]
      && s.clock == 0 && s.phrase == phrase && s.workers == map[]
  {
  }

  /** An hour and a second later worker 2 sweeps the row worker 1 is writing for. */
  function Swept2(): seq<Action> {
    [Advance(MAX_AGE + 1), ByWorker(2, BeginTick([(0, Running)])), ByWorker(2, Proceed)]
  }

  lemma SweepsUnderWorker(s: State)
    requires At(s, 1, 0, Writing(1, 1), 5) && s.jobs.Keys == {0} && s.clock == 0 && StageOf(s, 2) == Idle
    requires s.jobs[0].row.createdAt == 0 && JobOk(s.jobs[0], s.clock, s.phrase)
    ensures var s' := Exec(s, Swept2());
      && s'.phrase == s.phrase && s'.jobs.Keys == {0} && s'.jobs[0].row.status == Failed
      && s'.jobs[0].row.run == s.jobs[0].row.run
      && StageOf(s', 1) == StageOf(s, 1) && StageOf(s', 2) == Sweeping([(0, Running)], 1)
  {
    var a, b, c := Swept2()[0], Swept2()[1], Swept2()[2];
    ThreeSteps(s, a, b, c);
    var s1 := Apply(s, a);
    assert Stale(s1.jobs[0].row, s1.clock);
    assert [(0, Running)][0].0 == 0 && WasSeen([(0, Running)], 0);
    assert IsSweepRead(s1, [(0, Running)]);
  }

  /** A second restore of the same run is queued, and worker 2 reads it. */
  function Second(phrase: RunId -> string): seq<Action> {
    [Queue(1, 0, {Media}, phrase(0)), ByWorker(2, List([1]))]
  }

  lemma SecondWaits(s: State)
    requires s.jobs.Keys == {0} && s.jobs[0].row.status == Failed && s.jobs[0].row.run == 0
    requires StageOf(s, 2) == Sweeping([(0, Running)], 1)
    ensures var s' := Exec(s, Second(s.phrase));
      && Waits(s', 2, 1) && s'.jobs[1].row.run == 0 && 0 in s'.jobs && s'.jobs[0] == s.jobs[0]
      && StageOf(s', 1) == StageOf(s, 1)
  {
    var a, b := Second(s.phrase)[0], Second(s.phrase)[1];
    assert [a, b][..1] == [a] && [a][..0] == [];
    assert Exec(s, [a]) == Apply(s, a);
    var s1 := Apply(s, a);
    assert s1.jobs[1].row.status == Queued;
    assert IsQueueRead(s1, [1]);
  }

  /** So the promise of one restore of a run at a time has a run that breaks it. */
  lemma TwoWorkersCanWriteOneRun(phrase: RunId -> string) returns (run: seq<Action>)
    ensures var s := Exec(Start(phrase), run);
      && 0 in s.jobs && 1 in s.jobs && s.jobs[0].row.run == s.jobs[1].row.run
      && StageOf(s, 1) == Busy(0, Writing(1, 1), []) && StageOf(s, 2) == Busy(1, Writing(2, 1), [])
  {
    var write1, write2 := ToPricing(1) + ToWriting(1), ToPricing(2) + ToWriting(2);
    var s0 := Exec(Start(phrase), First(phrase, {Media}));
    FirstWaits(phrase, {Media});
    Writes(s0, 1, 0);
    var s1 := Exec(s0, write1);
    ExecAppends(Start(phrase), First(phrase, {Media}), write1);
    EveryJobIsOk(phrase, First(phrase, {Media}) + write1, 0);
    SweepsUnderWorker(s1);
    var s2 := Exec(s1, Swept2());
    SecondWaits(s2);
    var s3 := Exec(s2, Second(phrase));
    Writes(s3, 2, 1);
    run := First(phrase, {Media}) + write1 + Swept2() + Second(phrase) + write2;
    ExecAppends(Start(phrase), First(phrase, {Media}) + write1, Swept2());
    ExecAppends(Start(phrase), First(phrase, {Media}) + write1 + Swept2(), Second(phrase));
    ExecAppends(Start(phrase), First(phrase, {Media}) + write1 + Swept2() + Second(phrase), write2);
  }

  /** Nor is the operator's selection looked at again: objects are written for a job without them. */
  lemma WritesWhatWasNotSelected(phrase: RunId -> string) returns (run: seq<Action>)
    ensures var s := Exec(Start(phrase), run);
      0 in s.jobs && Media !in s.jobs[0].row.parts && StageOf(s, 1).Busy? && StageOf(s, 1).task.Writing?
      && |s.jobs[0].trail| == 5
  {
    FirstWaits(phrase, {Configuration});
    Writes(Exec(Start(phrase), First(phrase, {Configuration})), 1, 0);
    run := First(phrase, {Configuration}) + (ToPricing(1) + ToWriting(1));
    ExecAppends(Start(phrase), First(phrase, {Configuration}), ToPricing(1) + ToWriting(1));
  }
}
