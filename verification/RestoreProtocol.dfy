/**
 The queued restore as a protocol: any number of workers, operators and a clock, interleaved one
 database statement at a time.

 A run of the platform is a sequence of actions applied to the empty state; an action that is not
 enabled changes nothing. Every answer the outside world may give (a failing statement, a lost
 connection, what the preview found, a crash) is a parameter of an action, so a statement about all
 sequences of actions is a statement about all interleavings and all outcomes.
 */
module RestoreProtocol {
  import opened Options
  import opened RestoreJobs

  /** What rebuilding the preview reports. */
  datatype Preview = Preview(unpriced: bool, restorable: bool, mediaAvailable: bool)

  /** A safety backup that was taken, and whether every part of it was. */
  datatype Safety = Safety(id: nat, complete: bool)

  /** What a worker did for one job, in order. */
  datatype Event =
    | Claimed(worker: WorkerId)
    | PhraseRead(worker: WorkerId, given: string)
    | Priced(worker: WorkerId, preview: Preview)
    | SafetyTaken(worker: WorkerId, safety: Safety)
    | WriteBegan(worker: WorkerId)
    | Put(worker: WorkerId, landed: bool)

  /**
   A row, the trail of what workers did for it, and four facts its history leaves behind:
   a cancel was recorded, a sweep failed it, its abort statement never took effect, and its worker
   left it without finishing it.
   */
  datatype Job = Job(
    row: Row,
    trail: seq<Event>,
    cancelRecorded: bool,
    swept: bool,
    abortMissed: bool,
    orphaned: bool)

  /** The statement or call a worker is waiting on for the job it claimed. */
  datatype Task =
    | ClaimAbort
    | CancelCheck
    | CheckAbort
    | Planning
    | Pricing
    | SafetyCopy
    | OpeningMedia(safety: nat)
    | Writing(safety: nat, left: nat)
    | Finishing(safety: nat)
    | Refusing

  datatype Stage =
    | Idle
    | Sweeping(seen: seq<(JobId, Status)>, next: nat)
    | Serving(queue: seq<JobId>)
    | Busy(job: JobId, task: Task, queue: seq<JobId>)

  /** The rows, what every worker is doing, the clock, and the phrase that belongs to each run. */
  datatype State = State(
    jobs: map<JobId, Job>,
    workers: map<WorkerId, Stage>,
    clock: int,
    phrase: RunId -> string)

  /** The answer to what a worker is waiting on. */
  datatype Move =
    | BeginTick(seen: seq<(JobId, Status)>)
    | List(queue: seq<JobId>)
    | Proceed
    | PreviewBuilt(preview: Preview)
    | SafetyEnded(taken: Option<Safety>)
    | IndexRead(objects: Option<nat>)
    | ObjectTried(landed: bool)
    | Fault(committed: bool)
    | Crash

  datatype Action =
    | Advance(seconds: nat)
    | Queue(job: JobId, run: RunId, parts: set<Part>, confirmation: string)
    | RequestCancel(job: JobId)
    | SettleCancel(job: JobId)
    | ByWorker(worker: WorkerId, move: Move)

  function Start(phrase: RunId -> string): State {
    State(map[], map[], 0, phrase)
  }

  function StageOf(s: State, w: WorkerId): Stage {
    if w in s.workers then s.workers[w] else Idle
  }

  function SetStage(s: State, w: WorkerId, stage: Stage): State {
    s.(workers := s.workers[w := stage])
  }

  function SetJob(s: State, j: JobId, job: Job): State {
    s.(jobs := s.jobs[j := job])
  }

  predicate RunIsLive(s: State, run: RunId) {
    exists j :: j in s.jobs && s.jobs[j].row.run == run && Live(s.jobs[j].row)
  }

  predicate WasSeen(seen: seq<(JobId, Status)>, j: JobId) {
    exists i :: 0 <= i < |seen| && seen[i].0 == j
  }

  /** What the sweep's read returns: the oldest stale live rows, up to the limit, as they stand. */
  predicate IsSweepRead(s: State, seen: seq<(JobId, Status)>) {
    && |seen| <= SWEEP_LIMIT
    && (forall i :: 0 <= i < |seen| ==>
          && seen[i].0 in s.jobs
          && Stale(s.jobs[seen[i].0].row, s.clock)
          && seen[i].1 == s.jobs[seen[i].0].row.status)
    && (forall i, k :: 0 <= i < k < |seen| ==>
          seen[i].0 != seen[k].0
          && s.jobs[seen[i].0].row.createdAt <= s.jobs[seen[k].0].row.createdAt)
    && (forall j | j in s.jobs && Stale(s.jobs[j].row, s.clock) && !WasSeen(seen, j) ::
          && |seen| == SWEEP_LIMIT
          && (forall i :: 0 <= i < |seen| ==>
                s.jobs[seen[i].0].row.createdAt <= s.jobs[j].row.createdAt))
  }

  /** What the queue's read returns: the oldest queued rows, up to the limit. */
  predicate IsQueueRead(s: State, queue: seq<JobId>) {
    && |queue| <= QUEUE_LIMIT
    && (forall i :: 0 <= i < |queue| ==>
          queue[i] in s.jobs && s.jobs[queue[i]].row.status == Queued)
    && (forall i, k :: 0 <= i < k < |queue| ==>
          queue[i] != queue[k]
          && s.jobs[queue[i]].row.createdAt <= s.jobs[queue[k]].row.createdAt)
    && (forall j :: j in s.jobs && s.jobs[j].row.status == Queued && j !in queue ==>
          && |queue| == QUEUE_LIMIT
          && (forall i :: 0 <= i < |queue| ==>
                s.jobs[queue[i]].row.createdAt <= s.jobs[j].row.createdAt))
  }

  function Apply(s: State, a: Action): State {
    match a
    case Advance(seconds) => s.(clock := s.clock + seconds)
    case Queue(j, run, parts, confirmation) =>
      var row := Inserted(run, parts, confirmation, s.clock);
      if j in s.jobs || RunIsLive(s, run) || !SchemaAllows(row) then s
      else SetJob(s, j, Job(row, [], false, false, false, false))
    case RequestCancel(j) =>
      if j !in s.jobs || s.jobs[j].row.status != Queued then s
      else SetJob(s, j, s.jobs[j].(row := RequestCancelUpdate(s.jobs[j].row), cancelRecorded := true))
    case SettleCancel(j) =>
      if j !in s.jobs then s
      else SetJob(s, j, s.jobs[j].(row := SettleCancelUpdate(s.jobs[j].row, s.clock)))
    case ByWorker(w, m) => WorkerStep(s, w, m)
  }

  function WorkerStep(s: State, w: WorkerId, m: Move): State {
    match StageOf(s, w)
    case Idle =>
      if m.BeginTick? && IsSweepRead(s, m.seen) then SetStage(s, w, Sweeping(m.seen, 0)) else s
    case Sweeping(seen, next) => SweepStep(s, w, seen, next, m)
    case Serving(queue) => ServeStep(s, w, queue, m)
    case Busy(j, task, queue) => if j in s.jobs then BusyStep(s, w, j, task, queue, m) else s
  }

  /** The sweep's writes, one row at a time, and then the queue read. An error ends the tick. */
  function SweepStep(s: State, w: WorkerId, seen: seq<(JobId, Status)>, next: nat, m: Move): State {
    if m.Crash? || (m.Fault? && (next >= |seen| || !m.committed)) then SetStage(s, w, Idle)
    else if next >= |seen| then
      if m.List? && IsQueueRead(s, m.queue) then SetStage(s, w, Serving(m.queue)) else s
    else if (m.Proceed? || m.Fault?) && seen[next].0 in s.jobs then
      var j := seen[next].0;
      var after := SweepUpdate(s.jobs[j].row, seen[next].1, s.clock);
      if !SchemaAllows(after) then SetStage(s, w, Idle)
      else SetStage(SetJob(s, j, Swept(s.jobs[j], after)), w,
                    if m.Fault? then Idle else Sweeping(seen, next + 1))
    else s
  }

  function Swept(job: Job, after: Row): Job {
    job.(row := after, swept := job.swept || (job.row.status == Running && after.status == Failed))
  }

  /** The loop over the queue that was read: claim the next job, or end the tick. */
  function ServeStep(s: State, w: WorkerId, queue: seq<JobId>, m: Move): State {
    if m.Crash? || (queue == [] && m.Proceed?) then SetStage(s, w, Idle)
    else if queue == [] || queue[0] !in s.jobs || !(m.Proceed? || m.Fault?) then s
    else
      var j, job := queue[0], s.jobs[queue[0]];
      if job.row.status != Queued || (m.Fault? && !m.committed) then SetStage(s, w, Serving(queue[1..]))
      else
        SetStage(SetJob(s, j, ClaimedJob(job, w, m.Fault?, s.clock)), w,
                 if m.Fault? then Serving(queue[1..])
                 else Busy(j, if job.row.cancelRequested then ClaimAbort else CancelCheck, queue[1..]))
  }

  /** A claimed job. When the answer is lost nobody works on the claim, or aborts it. */
  function ClaimedJob(job: Job, w: WorkerId, lost: bool, clock: int): Job {
    var claimed := job.(row := ClaimUpdate(job.row, clock), trail := job.trail + [Claimed(w)]);
    if lost then claimed.(orphaned := true, abortMissed := job.abortMissed || job.row.cancelRequested)
    else claimed
  }

  /** The worker leaves the job; one it leaves running has nobody working on it any more. */
  function Leave(s: State, w: WorkerId, j: JobId, job: Job, stage: Stage): State {
    SetStage(SetJob(s, j, job.(orphaned := job.orphaned || job.row.status == Running)), w, stage)
  }

  function Continue(s: State, w: WorkerId, j: JobId, event: Event, task: Task,
                          queue: seq<JobId>): State
    requires j in s.jobs
  {
    SetStage(SetJob(s, j, s.jobs[j].(trail := s.jobs[j].trail + [event])), w, Busy(j, task, queue))
  }

  /** One awaited statement of `run_one`, in the order the code awaits them. */
  function BusyStep(s: State, w: WorkerId, j: JobId, task: Task, queue: seq<JobId>, m: Move): State
    requires j in s.jobs
  {
    var job := s.jobs[j];
    if m.Crash? then
      Leave(s, w, j, job.(abortMissed := job.abortMissed || task.ClaimAbort?), Idle)
    else
      match task
      case ClaimAbort =>
        if m.Proceed? then
          Leave(s, w, j, job.(row := AbortUpdate(job.row, s.clock)), Serving(queue))
        else if m.Fault? then
          SetStage(SetJob(s, j, if m.committed then job.(row := AbortUpdate(job.row, s.clock))
                                else job.(abortMissed := true)),
                   w, Busy(j, Refusing, queue))
        else s
      case CancelCheck =>
        if m.Proceed? then
          SetStage(s, w, Busy(j, if job.row.cancelRequested then CheckAbort else Planning, queue))
        else if m.Fault? then Leave(s, w, j, job, Serving(queue))
        else s
      case CheckAbort =>
        if m.Proceed? || (m.Fault? && m.committed) then
          Leave(s, w, j, job.(row := AbortUpdate(job.row, s.clock)), Serving(queue))
        else if m.Fault? then Leave(s, w, j, job, Serving(queue))
        else s
      case Planning =>
        if m.Proceed? then
          Continue(s, w, j, PhraseRead(w, job.row.confirmation),
                   if job.row.confirmation != s.phrase(job.row.run) then Refusing else Pricing, queue)
        else if m.Fault? then Leave(s, w, j, job, Serving(queue))
        else s
      case Pricing =>
        if m.PreviewBuilt? then
          Continue(s, w, j, Priced(w, m.preview),
                   if m.preview.unpriced || !m.preview.restorable then Refusing else SafetyCopy, queue)
        else s
      case SafetyCopy =>
        if m.SafetyEnded? then
          match m.taken
          case None => SetStage(s, w, Busy(j, Refusing, queue))
          case Some(safety) =>
            Continue(s, w, j, SafetyTaken(w, safety), AfterSafety(job.trail, safety), queue)
        else s
      case OpeningMedia(safety) =>
        if m.IndexRead? then
          match m.objects
          case None => SetStage(s, w, Busy(j, Refusing, queue))
          case Some(n) => Continue(s, w, j, WriteBegan(w), AfterObject(safety, n), queue)
        else s
      case Writing(safety, left) =>
        if m.ObjectTried? && left > 0 then
          Continue(s, w, j, Put(w, m.landed), AfterObject(safety, left - 1), queue)
        else s
      case Finishing(safety) =>
        if m.Proceed? || (m.Fault? && m.committed) then
          Leave(s, w, j, job.(row := SucceedUpdate(job.row, safety, s.clock)), Serving(queue))
        else if m.Fault? then Leave(s, w, j, job, Serving(queue))
        else s
      case Refusing =>
        if m.Proceed? || (m.Fault? && m.committed) then
          Leave(s, w, j, job.(row := FailUpdate(job.row, s.clock)), Serving(queue))
        else if m.Fault? then Leave(s, w, j, job, Serving(queue))
        else s
  }

  /** Whether the preview this trail was priced with offers the media part. */
  predicate OffersMedia(trail: seq<Event>) {
    |trail| > 2 && trail[2].Priced? && trail[2].preview.mediaAvailable
  }

  /** Whether that preview could be priced and restored. */
  predicate PricedWell(trail: seq<Event>) {
    |trail| > 2 && trail[2].Priced? && !trail[2].preview.unpriced && trail[2].preview.restorable
  }

  /** Whether this trail's safety backup is the complete run `id`. */
  predicate HasSafety(trail: seq<Event>, id: nat) {
    |trail| > 3 && trail[3].SafetyTaken? && trail[3].safety == Safety(id, true)
  }

  function AfterSafety(trail: seq<Event>, safety: Safety): Task {
    if !safety.complete then Refusing
    else if OffersMedia(trail) then OpeningMedia(safety.id)
    else Finishing(safety.id)
  }

  function AfterObject(safety: nat, left: nat): Task {
    if left == 0 then Finishing(safety) else Writing(safety, left)
  }

  /** The state after a run. */
  function Exec(s: State, run: seq<Action>): State {
    if run == [] then s else Apply(Exec(s, run[..|run| - 1]), run[|run| - 1])
  }
}
