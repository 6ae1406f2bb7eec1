/**
 When the map of watched hours is seen in the announcements: a run is laid out as its single askings,
 and compared at every moment with the same run without the map.
 */
module SpikeMap {
  import opened Options
  import opened SpikeWatch

  /** One asking about one site, or a restart. */
  datatype Moment = AskingOf(hour: int, asked: Asked) | Restarted

  function MomentsOf(step: Step): seq<Moment> {
    match step
    case Restart => [Restarted]
    case Tick(now, sites) =>
      if sites.None? then []
      else seq(|sites.value|, k requires 0 <= k < |sites.value| => AskingOf(Completed(now), sites.value[k]))
  }

  function Moments(run: seq<Step>): seq<Moment> {
    if run == [] then [] else Moments(run[..|run| - 1]) + MomentsOf(run[|run| - 1])
  }

  function After(m: Memory, x: Moment, cached: bool): Memory {
    match x
    case Restarted => m.(watched := map[])
    case AskingOf(hour, asked) => Watch(m, hour, asked, cached)
  }

  function Replay(f: seq<Moment>, cached: bool): Memory {
    if f == [] then Memory(map[], []) else After(Replay(f[..|f| - 1], cached), f[|f| - 1], cached)
  }

  lemma {:induction false} ReplayOfTick(f: seq<Moment>, hour: int, sites: seq<Asked>, cached: bool)
    ensures Replay(f + seq(|sites|, k requires 0 <= k < |sites| => AskingOf(hour, sites[k])), cached)
      == WatchAll(Replay(f, cached), hour, sites, cached)
  {
    var asks := seq(|sites|, k requires 0 <= k < |sites| => AskingOf(hour, sites[k]));
    if sites == [] {
      assert f + asks == f;
    } else {
      var init := sites[..|sites| - 1];
      var before := seq(|init|, k requires 0 <= k < |init| => AskingOf(hour, init[k]));
      ReplayOfTick(f, hour, init, cached);
      assert (f + asks)[..|f + asks| - 1] == f + before;
    }
  }

  /** Moment by moment is tick by tick. */
  lemma {:induction false} MomentsAreTheRun(run: seq<Step>, cached: bool)
    ensures Replay(Moments(run), cached) == Exec(run, cached)
  {
    if run != [] {
      var before, step := run[..|run| - 1], run[|run| - 1];
      MomentsAreTheRun(before, cached);
      if step.Tick? && step.sites.Some? {
        ReplayOfTick(Moments(before), Completed(step.now), step.sites.value, cached);
      } else if step.Restart? {
        assert Moments(run)[..|Moments(run)| - 1] == Moments(before);
      } else {
        assert Moments(run) == Moments(before);
      }
    }
  }

  // ---- the condition, from what the askings found

  /** Nothing fails in the asking; what it finds may differ from one asking to the next. */
  predicate WithoutFailure(x: Moment) {
    x.AskingOf? ==>
      && x.asked.answer.detection != DetectionFailed
      && !x.asked.answer.guardFails && !x.asked.answer.siteFails && x.asked.answer.emission == Recorded
  }

  predicate FindsSpike(x: Moment, site: SiteId, hour: int) {
    x.AskingOf? && x.asked.site == site && x.hour == hour && x.asked.answer.detection == Spike
  }

  predicate FoundBefore(f: seq<Moment>, site: SiteId, hour: int) {
    exists k :: 0 <= k < |f| && FindsSpike(f[k], site, hour)
  }

  /** The last thing this process asked about the site was this hour. */
  predicate AskedLast(f: seq<Moment>, site: SiteId, hour: int) {
    if f == [] || f[|f| - 1].Restarted? then false
    else if f[|f| - 1].asked.site == site then f[|f| - 1].hour == hour
    else AskedLast(f[..|f| - 1], site, hour)
  }

  /** A spike found for the first time by a process that had asked about the hour before, and found it quiet. */
  predicate LateSpike(f: seq<Moment>, i: nat)
    requires i < |f|
  {
    f[i].AskingOf? && f[i].asked.answer.detection == Spike
    && AskedLast(f[..i], f[i].asked.site, f[i].hour)
    && !FoundBefore(f[..i], f[i].asked.site, f[i].hour)
  }

  /** The announcements agree at every moment. */
  ghost predicate AlwaysTheSame(f: seq<Moment>) {
    forall n :: 0 <= n <= |f| ==> TheSame(f[..n])
  }

  ghost predicate TheSame(f: seq<Moment>) {
    Replay(f, true).events == Replay(f, false).events
  }

  /** What the map holds is what was asked last. */
  lemma {:induction false} MapIsAskedLast(f: seq<Moment>, site: SiteId, hour: int)
    ensures IsWatched(Replay(f, true), site, hour) <==> AskedLast(f, site, hour)
  {
    if f != [] {
      MapIsAskedLast(f[..|f| - 1], site, hour);
      var last := f[|f| - 1];
      if last.AskingOf? {
        MapIsAskedLast(f[..|f| - 1], last.asked.site, last.hour);
      }
    }
  }

  /** Without the map, an hour is announced exactly when some asking found it. */
  lemma {:induction false} AnnouncedIsFound(f: seq<Moment>, site: SiteId, hour: int)
    requires forall k :: 0 <= k < |f| ==> WithoutFailure(f[k])
    ensures Announced(site, hour) in Replay(f, false).events <==> FoundBefore(f, site, hour)
  {
    if f != [] {
      var before, last := f[..|f| - 1], f[|f| - 1];
      AnnouncedIsFound(before, site, hour);
      assert forall k :: 0 <= k < |before| ==> before[k] == f[k];
      assert WithoutFailure(last);
      assert FoundBefore(f, site, hour) <==> FoundBefore(before, site, hour) || FindsSpike(last, site, hour);
    }
  }

  lemma SameSoFar(f: seq<Moment>, x: Moment)
    ensures AlwaysTheSame(f + [x]) <==> AlwaysTheSame(f) && TheSame(f + [x])
  {
    var longer := f + [x];
    assert longer[..|longer|] == longer;
    forall n | 0 <= n <= |f|
      ensures longer[..n] == f[..n]
    {
    }
    if AlwaysTheSame(longer) {
      forall n | 0 <= n <= |f|
        ensures TheSame(f[..n])
      {
        assert TheSame(longer[..n]);
      }
    }
  }

  /** The next asking, from the same announcements: they part exactly when its spike is late. */
  lemma OneAsking(f: seq<Moment>, x: Moment)
    requires forall k :: 0 <= k < |f| ==> WithoutFailure(f[k])
    requires WithoutFailure(x) && Replay(f, true).events == Replay(f, false).events
    ensures Replay(f + [x], true).events == Replay(f + [x], false).events <==> !LateSpike(f + [x], |f|)
  {
    assert (f + [x])[..|f|] == f;
    if x.AskingOf? {
      MapIsAskedLast(f, x.asked.site, x.hour);
      AnnouncedIsFound(f, x.asked.site, x.hour);
    }
  }

  /**
   Without failures, the map is not seen in the announcements at any moment if and only if no spike
   is late: found only after the same process had found the hour quiet.
   */
  lemma {:induction false} TheMapIsSeenInLateSpikes(f: seq<Moment>)
    requires forall k :: 0 <= k < |f| ==> WithoutFailure(f[k])
    ensures AlwaysTheSame(f) <==> forall i :: 0 <= i < |f| ==> !LateSpike(f, i)
  {
    if f == [] {
      assert f[..0] == f;
    } else {
      var before, last := f[..|f| - 1], f[|f| - 1];
      assert f == before + [last];
      TheMapIsSeenInLateSpikes(before);
      SameSoFar(before, last);
      assert forall i :: 0 <= i < |before| ==> before[..i] == f[..i] && before[i] == f[i];
      assert forall i :: 0 <= i < |before| ==> (LateSpike(before, i) <==> LateSpike(f, i));
      if AlwaysTheSame(before) {
        assert before[..|before|] == before;
        OneAsking(before, last);
      }
    }
  }

  /** A quiet asking, then a spike found in the same hour: without the map it is announced, with it it is not. */
  lemma ALateSpikeIsLost(site: SiteId, now: int)
    ensures var quiet := Asked(site, Answer(Quiet, false, false, Recorded));
      var spike := Asked(site, Answer(Spike, false, false, Recorded));
      var run := [Tick(now, Some([quiet])), Tick(now, Some([spike]))];
      Exec(run, true).events == [] && Exec(run, false).events == [Announced(site, Completed(now))]
  {
    var quiet, spike := Asked(site, Answer(Quiet, false, false, Recorded)), Asked(site, Answer(Spike, false, false, Recorded));
    TwoTicks(now, quiet, spike, true);
    TwoTicks(now, quiet, spike, false);
  }

  /** Two ticks in one hour, each with one site. */
  lemma TwoTicks(now: int, first: Asked, second: Asked, cached: bool)
    ensures Exec([Tick(now, Some([first])), Tick(now, Some([second]))], cached)
      == Watch(Watch(Memory(map[], []), Completed(now), first, cached), Completed(now), second, cached)
  {
    var a, b := Tick(now, Some([first])), Tick(now, Some([second]));
    assert [a, b][..1] == [a] && [a][..0] == [];
    OneSite(Memory(map[], []), Completed(now), first, cached);
    OneSite(Watch(Memory(map[], []), Completed(now), first, cached), Completed(now), second, cached);
    assert Exec([a], cached) == Apply(Exec([], cached), a, cached);
    assert Exec([a, b], cached) == Apply(Exec([a], cached), b, cached);
  }

  lemma OneSite(m: Memory, hour: int, asked: Asked, cached: bool)
    ensures WatchAll(m, hour, [asked], cached) == Watch(m, hour, asked, cached)
  {
    var none: seq<Asked> := [];
    assert [asked][..0] == none;
  }
}
