/**
 The spike watch: on every tick each site is asked once whether the hour that just closed ran away,
 and an hour that did is announced once. Which hours were announced is read from the events
 themselves; the map of watched hours only lives as long as the process.
 */
module SpikeWatch {
  import opened Options

  type SiteId = nat

  datatype Announced = Announced(site: SiteId, hour: int)

  datatype Detection = Spike | Quiet | DetectionFailed

  /** What becomes of an event: recorded, recorded although an error came back, or not recorded. */
  datatype Emission = Recorded | RecordedSilently | Refused

  /** What the database answers while one site is asked. */
  datatype Answer = Answer(detection: Detection, guardFails: bool, siteFails: bool, emission: Emission)

  datatype Asked = Asked(site: SiteId, answer: Answer)

  /** What happens to the worker: a tick, or a restart of the process. */
  datatype Step = Tick(now: int, sites: Option<seq<Asked>>) | Restart

  datatype Memory = Memory(watched: map<SiteId, int>, events: seq<Announced>)

  const HOUR: int := 3600

  function HourStart(now: int): int {
    now - now % HOUR
  }

  /** The hour a tick is about: the last one that is over. */
  function Completed(now: int): int {
    HourStart(now) - HOUR
  }

  /** Asking about one site, without looking at the map. */
  function Ask(events: seq<Announced>, hour: int, asked: Asked): seq<Announced> {
    var event := Announced(asked.site, hour);
    if asked.answer.detection != Spike || asked.answer.guardFails || event in events then events
    else if asked.answer.siteFails || asked.answer.emission == Refused then events
    else events + [event]
  }

  predicate IsWatched(m: Memory, site: SiteId, hour: int) {
    site in m.watched && m.watched[site] == hour
  }

  /** Asking about one site, unless the map says it was asked about this hour. */
  function Watch(m: Memory, hour: int, asked: Asked, cached: bool): Memory {
    if cached && IsWatched(m, asked.site, hour) then m
    else Memory(m.watched[asked.site := hour], Ask(m.events, hour, asked))
  }

  function WatchAll(m: Memory, hour: int, sites: seq<Asked>, cached: bool): Memory {
    if sites == [] then m
    else Watch(WatchAll(m, hour, sites[..|sites| - 1], cached), hour, sites[|sites| - 1], cached)
  }

  function Apply(m: Memory, step: Step, cached: bool): Memory {
    match step
    case Restart => m.(watched := map[])
    case Tick(now, sites) => if sites.None? then m else WatchAll(m, Completed(now), sites.value, cached)
  }

  /** The worker from a first start on empty events; `cached` is whether it keeps the map. */
  function Exec(run: seq<Step>, cached: bool): Memory {
    if run == [] then Memory(map[], [])
    else Apply(Exec(run[..|run| - 1], cached), run[|run| - 1], cached)
  }

  class Watcher {
    var watched: map<SiteId, int>
    var events: seq<Announced>

    /** One tick of the worker, as the code runs it; `sites` is nothing when they cannot be listed. */
    method WatchSpikes(now: int, sites: Option<seq<Asked>>)
      modifies this
      ensures Memory(watched, events) == Apply(old(Memory(watched, events)), Tick(now, sites), true)
    {
      var completed := HourStart(now) - HOUR;
      if sites.None? {
        return;
      }
      ghost var start := Memory(watched, events);
      assert sites.value[..0] == [];
      for i := 0 to |sites.value|
        invariant Memory(watched, events) == WatchAll(start, completed, sites.value[..i], true)
      {
        assert sites.value[..i + 1][..i] == sites.value[..i];
        var site, answer := sites.value[i].site, sites.value[i].answer;
        if site in watched && watched[site] == completed {
          continue;
        }
        watched := watched[site := completed];
        if answer.detection != Spike {
          continue;
        }
        if answer.guardFails || Announced(site, completed) in events {
          continue;
        }
        if answer.siteFails {
          continue;
        }
        if answer.emission != Refused {
          events := events + [Announced(site, completed)];
        }
      }
      assert sites.value[..|sites.value|] == sites.value;
    }
  }

  // ---- at most once

  predicate NoRepeats(events: seq<Announced>) {
    forall i, k :: 0 <= i < k < |events| ==> events[i] != events[k]
  }

  lemma {:induction false} WatchAllAddsNew(m: Memory, hour: int, sites: seq<Asked>, cached: bool)
    ensures m.events <= WatchAll(m, hour, sites, cached).events
    ensures NoRepeats(m.events) ==> NoRepeats(WatchAll(m, hour, sites, cached).events)
    ensures forall e :: e in WatchAll(m, hour, sites, cached).events && e !in m.events ==> e.hour == hour
  {
    if sites != [] {
      WatchAllAddsNew(m, hour, sites[..|sites| - 1], cached);
    }
  }

  /**
   Whatever fails and however often the process restarts, with the map or without it, and for any
   clock: no site and hour is announced twice.
   */
  lemma {:induction false} AnnouncedAtMostOnce(run: seq<Step>, cached: bool)
    ensures NoRepeats(Exec(run, cached).events)
  {
    if run != [] {
      AnnouncedAtMostOnce(run[..|run| - 1], cached);
      var m, step := Exec(run[..|run| - 1], cached), run[|run| - 1];
      if step.Tick? && step.sites.Some? {
        WatchAllAddsNew(m, Completed(step.now), step.sites.value, cached);
      }
    }
  }

  // ---- what the map saves

  /** A run in which nothing fails, and every site's hour is judged the same way whenever it is asked. */
  ghost predicate Steady(run: seq<Step>, spikes: (SiteId, int) -> bool) {
    forall i :: 0 <= i < |run| ==> SteadyStep(run[i], spikes)
  }

  ghost predicate SteadyStep(step: Step, spikes: (SiteId, int) -> bool) {
    step.Tick? && step.sites.Some? ==> SteadySites(step.sites.value, Completed(step.now), spikes)
  }

  ghost predicate SteadySites(sites: seq<Asked>, hour: int, spikes: (SiteId, int) -> bool) {
    forall k :: 0 <= k < |sites| ==>
      && !sites[k].answer.guardFails && !sites[k].answer.siteFails && sites[k].answer.emission == Recorded
      && sites[k].answer.detection == if spikes(sites[k].site, hour) then Spike else Quiet
  }

  /** Every hour the map holds is settled: if it was a spike, it is announced. */
  ghost predicate Settled(m: Memory, spikes: (SiteId, int) -> bool) {
    forall site :: site in m.watched && spikes(site, m.watched[site]) ==> Announced(site, m.watched[site]) in m.events
  }

  lemma {:induction false} SteadyWatchAll(m: Memory, bare: Memory, hour: int, sites: seq<Asked>, spikes: (SiteId, int) -> bool)
    requires SteadySites(sites, hour, spikes) && Settled(m, spikes) && m.events == bare.events
    ensures Settled(WatchAll(m, hour, sites, true), spikes)
    ensures WatchAll(m, hour, sites, true).events == WatchAll(bare, hour, sites, false).events
  {
    if sites != [] {
      var init, last := sites[..|sites| - 1], sites[|sites| - 1];
      SteadyWatchAll(m, bare, hour, init, spikes);
      SettledWatch(WatchAll(m, hour, init, true), hour, last, spikes);
    }
  }

  lemma SettledWatch(m: Memory, hour: int, asked: Asked, spikes: (SiteId, int) -> bool)
    requires Settled(m, spikes)
    requires !asked.answer.guardFails && !asked.answer.siteFails && asked.answer.emission == Recorded
    requires asked.answer.detection == if spikes(asked.site, hour) then Spike else Quiet
    ensures Settled(Watch(m, hour, asked, true), spikes)
    ensures Watch(m, hour, asked, true).events == Ask(m.events, hour, asked)
  {
    assert spikes(asked.site, hour) ==> Announced(asked.site, hour) in Ask(m.events, hour, asked);
    assert m.events <= Ask(m.events, hour, asked);
  }

  /**
   The map only saves queries: in a steady run, restarts included, the announcements are the same,
   in the same order, with it and without it.
   */
  lemma {:induction false} TheMapOnlySavesQueries(run: seq<Step>, spikes: (SiteId, int) -> bool)
    requires Steady(run, spikes)
    ensures Exec(run, true).events == Exec(run, false).events
    ensures Settled(Exec(run, true), spikes)
  {
    if run != [] {
      var before, step := run[..|run| - 1], run[|run| - 1];
      assert SteadyStep(step, spikes);
      TheMapOnlySavesQueries(before, spikes);
      if step.Tick? && step.sites.Some? {
        SteadyWatchAll(Exec(before, true), Exec(before, false), Completed(step.now), step.sites.value, spikes);
      }
    }
  }

  // ---- what the map loses

  function ExecFrom(m: Memory, run: seq<Step>): Memory {
    if run == [] then m
    else Apply(ExecFrom(m, run[..|run| - 1]), run[|run| - 1], true)
  }

  /** Ticks of one process, on a clock that starts in the tick after `hour` and never goes back. */
  ghost predicate GoesOn(run: seq<Step>, hour: int) {
    && (forall i :: 0 <= i < |run| ==> run[i].Tick? && hour <= Completed(run[i].now))
    && (forall i, k :: 0 <= i < k < |run| ==> Completed(run[i].now) <= Completed(run[k].now))
  }

  /** The hour of the last tick so far. */
  function LastHour(run: seq<Step>, hour: int): int
    requires forall i :: 0 <= i < |run| ==> run[i].Tick?
  {
    if run == [] then hour else Completed(run[|run| - 1].now)
  }

  /** The site was asked about an hour from `asked` up to `upTo`. */
  predicate AskedSince(m: Memory, site: SiteId, asked: int, upTo: int) {
    site in m.watched && asked <= m.watched[site] <= upTo
  }

  lemma {:induction false} AskedHourIsClosed(m: Memory, hour: int, sites: seq<Asked>, site: SiteId, asked: int)
    requires AskedSince(m, site, asked, hour)
    ensures AskedSince(WatchAll(m, hour, sites, true), site, asked, hour)
    ensures Announced(site, asked) in WatchAll(m, hour, sites, true).events <==> Announced(site, asked) in m.events
  {
    if sites != [] {
      AskedHourIsClosed(m, hour, sites[..|sites| - 1], site, asked);
    }
  }

  /**
   Asking happens once: after a process has asked about a site's hour, whatever came of it, the rest
   of that process announces the hour only if it was already announced. A failure in the one asking
   therefore loses the announcement, unless the process restarts within the hour.
   */
  lemma {:induction false} OneAskingDecides(m: Memory, run: seq<Step>, site: SiteId, hour: int)
    requires IsWatched(m, site, hour) && GoesOn(run, hour)
    ensures AskedSince(ExecFrom(m, run), site, hour, LastHour(run, hour))
    ensures Announced(site, hour) in ExecFrom(m, run).events <==> Announced(site, hour) in m.events
  {
    if run != [] {
      var before, step := run[..|run| - 1], run[|run| - 1];
      OneAskingDecides(m, before, site, hour);
      assert LastHour(before, hour) <= Completed(step.now);
      if step.sites.Some? {
        AskedHourIsClosed(ExecFrom(m, before), Completed(step.now), step.sites.value, site, hour);
      }
    }
  }
}
