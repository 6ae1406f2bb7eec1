/**
 The rows of `backup_restore_jobs` and the SQL statements that move them.

 A statement is a conditional update: it changes the row its `where` clause matches and leaves
 every other row alone. The table's check constraints get the last word: an update whose new row
 breaks one of them is refused and the row stays as it was.
 */
module RestoreJobs {
  import opened Options

  type JobId = nat
  type WorkerId = nat
  type RunId = nat

  /** How long a live row may age, counted from its creation, before a sweep stops it (seconds). */
  const MAX_AGE := 60 * 60

  /** How many rows one sweep, and one queue read, returns. */
  const SWEEP_LIMIT := 20
  const QUEUE_LIMIT := 10

  datatype Part = Database | Media | Configuration | Themes | Plugins

  datatype Status = Queued | Running | Succeeded | Failed | Aborted

  /** Why a row ended without a restore. A reason is never blank. */
  datatype Reason =
    | CancelledBeforeWrite
    | Unclaimed
    | Interrupted
    | Refused

  datatype Row = Row(
    run: RunId,
    parts: set<Part>,
    confirmation: string,
    status: Status,
    cancelRequested: bool,
    startedAt: Option<int>,
    finishedAt: Option<int>,
    safety: Option<nat>,
    hasResult: bool,
    error: Option<Reason>,
    createdAt: int)

  /** A row nothing has finished yet: what the partial unique index and the sweep cover. */
  predicate Live(r: Row) { r.status == Queued || r.status == Running }

  predicate Terminal(r: Row) { !Live(r) }

  predicate Stale(r: Row, now: int) { Live(r) && r.createdAt < now - MAX_AGE }

  /** The check constraints of the table. */
  predicate SchemaAllows(r: Row) {
    && (match r.status
        case Queued => r.startedAt == None && r.finishedAt == None
        case Running => r.startedAt != None && r.finishedAt == None
        case Succeeded => r.startedAt != None && r.finishedAt != None
        case Failed => r.startedAt != None && r.finishedAt != None
        case Aborted => r.finishedAt != None)
    && (r.status == Aborted ==> r.startedAt == None && r.cancelRequested)
    && (r.status == Succeeded ==> r.hasResult && r.safety != None)
    && (r.status == Failed ==> r.error != None)
    && 1 <= |r.parts| <= 5
  }

  function Inserted(run: RunId, parts: set<Part>, confirmation: string, now: int): Row {
    Row(run, parts, confirmation, Queued, false, None, None, None, false, None, now)
  }

  // ---- the update each statement asks for; a row the where clause misses comes back unchanged

  function ClaimUpdate(r: Row, now: int): Row {
    if r.status == Queued then r.(status := Running, startedAt := Some(now)) else r
  }

  function RequestCancelUpdate(r: Row): Row {
    if r.status == Queued then r.(cancelRequested := true) else r
  }

  function SettleCancelUpdate(r: Row, now: int): Row {
    if r.status == Queued && r.cancelRequested
    then r.(status := Aborted, finishedAt := Some(now), error := Some(CancelledBeforeWrite))
    else r
  }

  function AbortUpdate(r: Row, now: int): Row {
    if r.status == Running && r.cancelRequested
    then r.(status := Aborted, startedAt := None, finishedAt := Some(now),
            error := Some(CancelledBeforeWrite))
    else r
  }

  function SucceedUpdate(r: Row, safety: nat, now: int): Row {
    if r.status == Running
    then r.(status := Succeeded, finishedAt := Some(now), safety := Some(safety),
            hasResult := true, error := None)
    else r
  }

  function FailUpdate(r: Row, now: int): Row {
    if r.status == Running
    then r.(status := Failed, finishedAt := Some(now), safety := None, hasResult := false,
            error := Some(Refused))
    else r
  }

  /**
   The write half of the sweep. It decides from the status the read half saw, while the `where`
   clause only asks that the row is still live.
   */
  function SweepUpdate(r: Row, seen: Status, now: int): Row {
    if !Live(r) then r
    else if seen == Running
    then r.(status := Failed, cancelRequested := false, finishedAt := Some(now),
            error := Some(Interrupted))
    else r.(status := Aborted, cancelRequested := true, finishedAt := Some(now),
            error := Some(Unclaimed))
  }

  /** What the table holds after an update: the new row when the constraints allow it. */
  function Stored(before: Row, after: Row): Row {
    if SchemaAllows(after) then after else before
  }

  /**
   The sweep race, exactly. A row read as queued and claimed before the write keeps its claim,
   because no aborted row may have a start; every other live row the sweep writes becomes terminal.
   */
  lemma SweepWriteSettles(r: Row, seen: Status, now: int)
    requires SchemaAllows(r)
    requires seen == Queued || (seen == Running && r.status != Queued)
    ensures var after := Stored(r, SweepUpdate(r, seen, now));
      Terminal(after) <==> (Terminal(r) || r.status == seen)
    ensures Terminal(r) ==> SweepUpdate(r, seen, now) == r
    ensures r.status == Running && seen == Queued ==> !SchemaAllows(SweepUpdate(r, seen, now))
  {
  }
}
