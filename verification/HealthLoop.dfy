/**
 The health runner: one loop that beats every thirty seconds and probes after an interval read from
 the settings. Times are milliseconds of a monotone clock.

 The loop waits for whichever comes first, the next heartbeat or a sleep that is made anew on every
 turn, and does the work of the winner before it waits again. Reading the settings happens before
 the wait begins. A heartbeat that is late skips the ticks it missed.
 */
module HealthLoop {
  import opened Options

  const HEARTBEAT: int := 30_000
  const MIN_CHECK_INTERVAL: int := 1
  const MAX_CHECK_INTERVAL: int := 600
  const DEFAULT_CHECK_INTERVAL: int := 60
  const WORKER_STALE: int := 120_000

  /**
   One turn of the loop: how long reading the settings takes and what it answers (nothing when it
   fails), how long the heartbeat and the probes would take, and who wins when both are ready at once.
   */
  datatype Turn = Turn(reading: nat, seconds: Option<int>, beating: nat, probing: nat, tieToBeat: bool)

  datatype Beat = Beat(began: int, ended: int)
  datatype Probe = Probe(began: int, ended: int)

  datatype Loop = Loop(now: int, deadline: int, beats: seq<Beat>, probes: seq<Probe>)

  /** How long to wait before the next probe run. */
  function CheckInterval(seconds: Option<int>): (ms: int)
    ensures MIN_CHECK_INTERVAL * 1000 <= ms <= MAX_CHECK_INTERVAL * 1000
  {
    var s := if seconds.Some? then seconds.value else DEFAULT_CHECK_INTERVAL;
    (if s < MIN_CHECK_INTERVAL then MIN_CHECK_INTERVAL else if s > MAX_CHECK_INTERVAL then MAX_CHECK_INTERVAL else s) * 1000
  }

  /** The next tick of an interval whose tick of `due` is taken at `now`, skipping the missed ones. */
  function NextTick(due: int, now: int): (next: int)
    requires due <= now
    ensures now < next <= now + HEARTBEAT
    ensures now - due < HEARTBEAT ==> next == due + HEARTBEAT
    ensures (next - due) % HEARTBEAT == 0
  {
    now + HEARTBEAT - (now - due) % HEARTBEAT
  }

  function Max(a: int, b: int): int {
    if a < b then b else a
  }

  /** When the sleep of a turn ends, and when its heartbeat could be taken. */
  function WakesAt(l: Loop, t: Turn): int {
    l.now + t.reading + CheckInterval(t.seconds)
  }

  function BeatsAt(l: Loop, t: Turn): int {
    Max(l.now + t.reading, l.deadline)
  }

  predicate BeatWins(l: Loop, t: Turn) {
    BeatsAt(l, t) < WakesAt(l, t) || (BeatsAt(l, t) == WakesAt(l, t) && t.tieToBeat)
  }

  function Step(l: Loop, t: Turn): Loop {
    if BeatWins(l, t) then
      var at := BeatsAt(l, t);
      Loop(at + t.beating, NextTick(l.deadline, at), l.beats + [Beat(at, at + t.beating)], l.probes)
    else
      var at := WakesAt(l, t);
      Loop(at + t.probing, l.deadline, l.beats, l.probes + [Probe(at, at + t.probing)])
  }

  /** The first heartbeat is written at boot; the interval begins behind it. */
  function Boot(beating: nat): Loop {
    Loop(beating, beating + HEARTBEAT, [Beat(0, beating)], [])
  }

  function Exec(beating: nat, turns: seq<Turn>): Loop {
    if turns == [] then Boot(beating) else Step(Exec(beating, turns[..|turns| - 1]), turns[|turns| - 1])
  }

  class HealthRunner {
    var now: int
    var deadline: int
    var beats: seq<Beat>
    var probes: seq<Probe>

    constructor (beating: nat)
      ensures Loop(now, deadline, beats, probes) == Boot(beating)
    {
      beats := [Beat(0, beating)];
      probes := [];
      now := beating;
      deadline := beating + HEARTBEAT;
    }

    /** The endless loop, up to any number of turns. */
    method Serve(beating: nat, turns: seq<Turn>)
      requires Loop(now, deadline, beats, probes) == Boot(beating)
      modifies this
      ensures Loop(now, deadline, beats, probes) == Exec(beating, turns)
    {
      assert turns[..0] == [];
      for i := 0 to |turns|
        invariant Loop(now, deadline, beats, probes) == Exec(beating, turns[..i])
      {
        assert turns[..i + 1][..i] == turns[..i];
        Select(turns[i]);
      }
      assert turns[..|turns|] == turns;
    }

    /** One turn: read the interval, wait for whichever comes first, and do its work. */
    method Select(t: Turn)
      modifies this
      ensures Loop(now, deadline, beats, probes) == Step(old(Loop(now, deadline, beats, probes)), t)
    {
      now := now + t.reading;
      var wake := now + CheckInterval(t.seconds);
      var beat := Max(now, deadline);
      if beat < wake || (beat == wake && t.tieToBeat) {
        now := beat + t.beating;
        deadline := NextTick(deadline, beat);
        beats := beats + [Beat(beat, now)];
      } else {
        now := wake + t.probing;
        probes := probes + [Probe(wake, now)];
      }
    }
  }

  // ---- when no probe ever runs

  /** What every turn starts from: a heartbeat was written, and the next one is at most 30 s off. */
  predicate LoopOk(l: Loop) {
    && |l.beats| > 0
    && l.beats[|l.beats| - 1].ended <= l.now
    && l.deadline <= l.beats[|l.beats| - 1].ended + HEARTBEAT
  }

  lemma {:induction false} EveryTurnIsOk(beating: nat, turns: seq<Turn>)
    ensures LoopOk(Exec(beating, turns))
  {
    if turns != [] {
      EveryTurnIsOk(beating, turns[..|turns| - 1]);
    }
  }

  /** A turn whose reading and interval together outlast a heartbeat period. */
  predicate OutlastsAHeartbeat(t: Turn) {
    t.reading + CheckInterval(t.seconds) > HEARTBEAT
  }

  /**
   If every interval read is longer than thirty seconds (or just as long, with any time spent on
   reading it), no probe is ever run, however long the loop goes on.
   */
  lemma {:induction false} LongIntervalsNeverProbe(beating: nat, turns: seq<Turn>)
    requires forall i :: 0 <= i < |turns| ==> OutlastsAHeartbeat(turns[i])
    ensures Exec(beating, turns).probes == []
  {
    if turns != [] {
      LongIntervalsNeverProbe(beating, turns[..|turns| - 1]);
      EveryTurnIsOk(beating, turns[..|turns| - 1]);
      assert OutlastsAHeartbeat(turns[|turns| - 1]);
    }
  }

  /** The default of sixty seconds, and settings that cannot be read, are such intervals. */
  lemma TheDefaultNeverProbes(beating: nat, turns: seq<Turn>)
    requires forall i :: 0 <= i < |turns| ==> turns[i].seconds == None || turns[i].seconds == Some(DEFAULT_CHECK_INTERVAL)
    ensures Exec(beating, turns).probes == []
  {
    LongIntervalsNeverProbe(beating, turns);
  }

  predicate Negligible(t: Turn) {
    t.reading == 0 && t.beating == 0 && t.probing == 0
  }

  /**
   With a fixed interval and a fixed time to read it, whatever the other work takes, some run of the
   loop probes if and only if the two together are at most thirty seconds.
   */
  lemma ProbesCanRunIff(seconds: int, reading: nat)
    ensures reading + CheckInterval(Some(seconds)) <= HEARTBEAT <==>
      exists boot: nat, turns: seq<Turn> :: AlwaysReads(turns, seconds, reading) && Exec(boot, turns).probes != []
  {
    if reading + CheckInterval(Some(seconds)) <= HEARTBEAT {
      var turns := [Turn(reading, Some(seconds), 0, 0, false)];
      assert turns[..0] == [];
      assert Exec(0, turns) == Step(Boot(0), turns[0]);
      assert AlwaysReads(turns, seconds, reading) && Exec(0, turns).probes != [];
    } else {
      forall boot: nat, turns: seq<Turn> | AlwaysReads(turns, seconds, reading)
        ensures Exec(boot, turns).probes == []
      {
        LongIntervalsNeverProbe(boot, turns);
      }
    }
  }

  predicate AlwaysReads(turns: seq<Turn>, seconds: int, reading: nat) {
    forall i :: 0 <= i < |turns| ==> turns[i].reading == reading && turns[i].seconds == Some(seconds)
  }

  // ---- how far apart probes are

  /** The end of what came before the next probe: the last probe, or the boot. */
  function LastProbe(l: Loop, boot: int): int {
    if l.probes == [] then boot else l.probes[|l.probes| - 1].began
  }

  predicate GapsWithin(l: Loop, boot: int, low: int, high: int) {
    && (l.probes != [] ==> low <= l.probes[0].began - boot <= high)
    && forall k :: 0 < k < |l.probes| ==> low <= l.probes[k].began - l.probes[k - 1].began <= high
  }

  /**
   The stated intent is a run every interval. With a constant interval below thirty seconds and
   negligible work, consecutive runs start at least one and at most two intervals apart, and of any
   two turns one runs the probes.
   */
  lemma {:induction false} ProbesAreAtMostTwoIntervalsApart(turns: seq<Turn>, seconds: int) returns (beaten: bool)
    requires CheckInterval(Some(seconds)) < HEARTBEAT
    requires forall i :: 0 <= i < |turns| ==> Negligible(turns[i]) && turns[i].seconds == Some(seconds)
    ensures var interval, l := CheckInterval(Some(seconds)), Exec(0, turns);
      && GapsWithin(l, 0, interval, 2 * interval)
      && AfterTurn(l, interval, beaten)
      && 2 * |l.probes| + (if beaten then 1 else 0) >= |turns|
  {
    beaten := false;
    if turns != [] {
      var l, t := Exec(0, turns[..|turns| - 1]), turns[|turns| - 1];
      var before := ProbesAreAtMostTwoIntervalsApart(turns[..|turns| - 1], seconds);
      beaten := BeatWins(l, t);
      OneTurnMore(l, t, seconds, before);
    }
  }

  lemma OneTurnMore(l: Loop, t: Turn, seconds: int, before: bool)
    requires CheckInterval(Some(seconds)) < HEARTBEAT && Negligible(t) && t.seconds == Some(seconds)
    requires GapsWithin(l, 0, CheckInterval(Some(seconds)), 2 * CheckInterval(Some(seconds)))
    requires AfterTurn(l, CheckInterval(Some(seconds)), before)
    ensures GapsWithin(Step(l, t), 0, CheckInterval(Some(seconds)), 2 * CheckInterval(Some(seconds)))
    ensures AfterTurn(Step(l, t), CheckInterval(Some(seconds)), BeatWins(l, t))
    ensures |Step(l, t).probes| == |l.probes| + (if BeatWins(l, t) then 0 else 1)
    ensures before ==> !BeatWins(l, t)
  {
    var interval := CheckInterval(Some(seconds));
    WakesInTime(l, t, interval, before);
    StepKeepsGaps(l, t, 0, interval, 2 * interval);
    if BeatWins(l, t) {
      BeatTurn(l, t, interval, before);
    }
  }

  lemma WakesInTime(l: Loop, t: Turn, interval: int, before: bool)
    requires Negligible(t) && CheckInterval(t.seconds) == interval < HEARTBEAT && AfterTurn(l, interval, before)
    ensures interval <= WakesAt(l, t) - LastProbe(l, 0) <= 2 * interval
    ensures before ==> !BeatWins(l, t)
  {
  }

  /** A heartbeat in time, with the whole period ahead of it. */
  lemma BeatTurn(l: Loop, t: Turn, interval: int, before: bool)
    requires Negligible(t) && CheckInterval(t.seconds) == interval < HEARTBEAT && AfterTurn(l, interval, before)
    requires BeatWins(l, t)
    ensures AfterTurn(Step(l, t), interval, true)
  {
    assert NextTick(l.deadline, l.deadline) == l.deadline + HEARTBEAT;
  }

  /** With negligible work: either the last turn was a heartbeat, or it ran the probes. */
  predicate AfterTurn(l: Loop, interval: int, beaten: bool) {
    && l.now <= l.deadline
    && LastProbe(l, 0) <= l.now <= LastProbe(l, 0) + interval
    && (if beaten then l.deadline == l.now + HEARTBEAT else l.now == LastProbe(l, 0))
  }

  /** Two intervals are reached: with fifteen seconds, a tie that goes to the heartbeat. */
  lemma TwoIntervalsAreReached()
    ensures var t := Turn(0, Some(15), 0, 0, true);
      var l := Step(Step(Step(Boot(0), t), t), t);
      |l.probes| == 2 && l.probes[1].began - l.probes[0].began == 2 * CheckInterval(Some(15))
  {
  }

  /** Bounds on the work of a turn, and on the interval it reads. */
  predicate Bounded(t: Turn, reading: nat, beating: nat, probing: nat, interval: int) {
    t.reading <= reading && t.beating <= beating && t.probing <= probing && CheckInterval(t.seconds) <= interval
  }

  /** How many heartbeats there were since the last probe, and what that leaves to wait for. */
  ghost predicate Waiting(l: Loop, boot: int, reading: nat, beating: nat, probing: nat, interval: int, count: nat) {
    var began := LastProbe(l, boot);
    && count <= 2
    && l.now <= began + probing + count * (reading + interval + beating)
    && (count == 1 ==> l.deadline > l.now - beating)
    && (count == 2 ==> l.deadline > l.now + interval + reading)
  }

  lemma BeatLeavesTwoTurns(l: Loop, t: Turn, boot: int, reading: nat, beating: nat, probing: nat, interval: int, count: nat)
    requires Waiting(l, boot, reading, beating, probing, interval, count)
    requires Bounded(t, reading, beating, probing, interval)
    requires interval + 2 * (reading + beating) < HEARTBEAT
    ensures BeatWins(l, t) ==> count < 2 && Waiting(Step(l, t), boot, reading, beating, probing, interval, count + 1)
    ensures !BeatWins(l, t) ==> Waiting(Step(l, t), boot, reading, beating, probing, interval, 0)
    ensures WakesAt(l, t) - LastProbe(l, boot) <= probing + 3 * (reading + interval) + 2 * beating
  {
  }

  lemma StepKeepsGaps(l: Loop, t: Turn, boot: int, low: int, high: int)
    requires GapsWithin(l, boot, low, high) && low <= WakesAt(l, t) - LastProbe(l, boot) <= high
    ensures GapsWithin(Step(l, t), boot, low, high)
    ensures |Step(l, t).probes| == |l.probes| + if BeatWins(l, t) then 0 else 1
  {
  }

  /**
   With work that takes time: if one interval and twice the reading and beating fit between two
   heartbeats, at most two heartbeats come between two probe runs, so runs never stop coming.
   */
  lemma {:induction false} ProbesKeepComing(boot: nat, turns: seq<Turn>, reading: nat, beating: nat, probing: nat, interval: int)
    returns (count: nat)
    requires forall i :: 0 <= i < |turns| ==> Bounded(turns[i], reading, beating, probing, interval)
    requires interval + 2 * (reading + beating) < HEARTBEAT
    ensures Waiting(Exec(boot, turns), boot, reading, beating, probing, interval, count)
    ensures GapsWithin(Exec(boot, turns), boot, 0, probing + 3 * (reading + interval) + 2 * beating)
    ensures 3 * |Exec(boot, turns).probes| + count >= |turns|
  {
    count := 0;
    if turns != [] {
      var l, t := Exec(boot, turns[..|turns| - 1]), turns[|turns| - 1];
      var before := ProbesKeepComing(boot, turns[..|turns| - 1], reading, beating, probing, interval);
      BeatLeavesTwoTurns(l, t, boot, reading, beating, probing, interval, before);
      count := if BeatWins(l, t) then before + 1 else 0;
      LastProbeIsPast(boot, turns[..|turns| - 1]);
      StepKeepsGaps(l, t, boot, 0, probing + 3 * (reading + interval) + 2 * beating);
    }
  }

  lemma {:induction false} LastProbeIsPast(boot: nat, turns: seq<Turn>)
    ensures LastProbe(Exec(boot, turns), boot) <= Exec(boot, turns).now
  {
    if turns != [] {
      LastProbeIsPast(boot, turns[..|turns| - 1]);
    }
  }

  // ---- how far apart heartbeats are

  predicate BeatsWithin(l: Loop, limit: int) {
    forall k :: 0 < k < |l.beats| ==> l.beats[k].ended - l.beats[k - 1].ended <= limit
  }

  /** Before the next heartbeat the loop is at most one probe run behind the tick it waits for. */
  lemma {:induction false} HeartbeatGap(boot: nat, turns: seq<Turn>, reading: nat, beating: nat, probing: nat)
    requires forall i :: 0 <= i < |turns| ==>
      Bounded(turns[i], reading, beating, probing, MAX_CHECK_INTERVAL * 1000)
    ensures LoopOk(Exec(boot, turns)) && CloseBehind(Exec(boot, turns), probing)
    ensures BeatsWithin(Exec(boot, turns), HEARTBEAT + probing + reading + beating)
  {
    EveryTurnIsOk(boot, turns);
    if turns != [] {
      EveryTurnIsOk(boot, turns[..|turns| - 1]);
      HeartbeatGap(boot, turns[..|turns| - 1], reading, beating, probing);
      StepKeepsBeats(Exec(boot, turns[..|turns| - 1]), turns[|turns| - 1], reading, beating, probing);
    }
  }

  /** At most one probe run behind the tick that is waited for. */
  predicate CloseBehind(l: Loop, probing: nat)
    requires |l.beats| > 0
  {
    l.now <= Max(l.beats[|l.beats| - 1].ended, l.deadline + probing)
  }

  lemma StepKeepsBeats(l: Loop, t: Turn, reading: nat, beating: nat, probing: nat)
    requires LoopOk(l) && CloseBehind(l, probing) && BeatsWithin(l, HEARTBEAT + probing + reading + beating)
    requires Bounded(t, reading, beating, probing, MAX_CHECK_INTERVAL * 1000)
    ensures LoopOk(Step(l, t)) && CloseBehind(Step(l, t), probing)
    ensures BeatsWithin(Step(l, t), HEARTBEAT + probing + reading + beating)
  {
    if BeatWins(l, t) {
      BeatIsClose(l, t, reading, beating, probing);
    }
  }

  lemma BeatIsClose(l: Loop, t: Turn, reading: nat, beating: nat, probing: nat)
    requires LoopOk(l) && CloseBehind(l, probing) && Bounded(t, reading, beating, probing, MAX_CHECK_INTERVAL * 1000)
    ensures BeatsAt(l, t) + t.beating - l.beats[|l.beats| - 1].ended <= HEARTBEAT + probing + reading + beating
    ensures BeatsAt(l, t) < NextTick(l.deadline, BeatsAt(l, t)) <= BeatsAt(l, t) + HEARTBEAT
  {
  }

  /**
   A live process is never called stale as long as its longest probe run, settings read and
   heartbeat write stay under ninety seconds together: at every turn the last heartbeat is less than
   the limit old, and so was every one before it when the next was written.
   */
  lemma StaysFresh(boot: nat, turns: seq<Turn>, reading: nat, beating: nat, probing: nat)
    requires forall i :: 0 <= i < |turns| ==>
      Bounded(turns[i], reading, beating, probing, MAX_CHECK_INTERVAL * 1000)
    requires reading + beating + probing < 90_000
    ensures LoopOk(Exec(boot, turns)) && BeatsWithin(Exec(boot, turns), WORKER_STALE - 1)
    ensures Exec(boot, turns).now < Exec(boot, turns).beats[|Exec(boot, turns).beats| - 1].ended + WORKER_STALE
  {
    HeartbeatGap(boot, turns, reading, beating, probing);
  }

  lemma {:induction false} GapsAddUp(l: Loop, limit: nat, j: nat, k: nat)
    requires BeatsWithin(l, limit) && j <= k < |l.beats|
    ensures l.beats[k].ended - l.beats[j].ended <= (k - j) * limit
  {
    if j < k {
      GapsAddUp(l, limit, j, k - 1);
      assert (k - j) * limit == (k - 1 - j) * limit + limit;
    }
  }

  /**
   Heartbeats whose write fails: with at most `failed` of them in a row, the one before and the one
   behind them are as far apart as that many gaps more. With negligible work the limit holds two
   failures in a row.
   */
  lemma FailedWritesAddUp(boot: nat, turns: seq<Turn>, reading: nat, beating: nat, probing: nat, failed: nat, j: nat, k: nat)
    requires forall i :: 0 <= i < |turns| ==>
      Bounded(turns[i], reading, beating, probing, MAX_CHECK_INTERVAL * 1000)
    requires j < k < |Exec(boot, turns).beats| && k - j == failed + 1
    ensures var beats := Exec(boot, turns).beats;
      && beats[k].ended - beats[j].ended <= (failed + 1) * (HEARTBEAT + probing + reading + beating)
      && (reading == beating == probing == 0 && failed <= 2 ==> beats[k].ended - beats[j].ended < WORKER_STALE)
  {
    HeartbeatGap(boot, turns, reading, beating, probing);
    GapsAddUp(Exec(boot, turns), HEARTBEAT + probing + reading + beating, j, k);
  }

  /**
   The gap of thirty seconds plus the run is reached, and it silences the heartbeat for the whole
   run: a tie at thirty seconds that goes to the probes.
   */
  lemma TheGapIsReached(probing: nat)
    ensures var l := Step(Step(Boot(0), Turn(0, Some(30), 0, probing, false)), Turn(0, Some(30), 0, probing, false));
      |l.beats| == 2 && l.beats[1].ended - l.beats[0].ended == HEARTBEAT + probing
  {
  }
}
