/** What holds of the palette in every run, whatever the network does with its requests. */
module PaletteInvariant {
  import opened Options
  import opened PaletteGroups
  import opened PaletteProtocol

  /** What the box asks for at the moment. */
  datatype Current = Current(hunting: bool, term: string, targets: seq<string>)

  function CurrentOf(s: State): Current {
    Current(Hunting(s), Term(s), TargetsOf(s))
  }

  predicate IsGroupRequest(r: Request) {
    r.kind == First || r.kind == Again
  }

  predicate IsAbout(e: Entry, token: nat, provider: string) {
    !e.Suggested? && IsGroupRequest(e.request) && e.request.token == token && e.request.provider == provider
  }

  /** The last thing that went over the network for one provider in one search. */
  function LastAbout(log: seq<Entry>, token: nat, provider: string): Option<Entry> {
    if log == [] then None
    else if IsAbout(log[|log| - 1], token, provider) then Some(log[|log| - 1])
    else LastAbout(log[..|log| - 1], token, provider)
  }

  /** The group a reader should see, from the network's history alone. */
  function GroupNow(last: Option<Entry>, provider: string): Group {
    match last
    case Some(Came(_, result)) => GroupFromAnswer(provider, result)
    case Some(Failed(_, failure)) => GroupFromError(provider, failure)
    case _ => PendingGroup(provider)
  }

  predicate Distinct(targets: seq<string>) {
    forall i, k :: 0 <= i < k < |targets| ==> targets[i] != targets[k]
  }

  predicate CurrentOk(c: Current) {
    Distinct(c.targets) && (c.hunting ==> c.targets != [])
  }

  ghost predicate ScreenOk(s: State, c: Current) {
    if c.hunting
    then |s.groups| == |c.targets|
      && forall i :: 0 <= i < |c.targets| ==> s.groups[i] == GroupNow(LastAbout(s.log, s.token, c.targets[i]), c.targets[i])
    else s.groups == []
  }

  /** A provider's request is in flight exactly when it is the last thing that happened to the provider. */
  ghost predicate FlightOk(s: State) {
    forall r: Request :: IsGroupRequest(r) ==>
      (r in s.inFlight <==> LastAbout(s.log, r.token, r.provider) == Some(Sent(r)))
  }

  /** A request belongs to this search or an earlier one; one of this search asks what the box holds. */
  predicate RequestOk(r: Request, s: State, c: Current) {
    && r.token <= s.token
    && (r.token == s.token ==>
          c.hunting && !s.timer && r.text == c.term && (IsGroupRequest(r) ==> r.provider in c.targets))
  }

  ghost predicate TokensOk(s: State, c: Current) {
    && (forall r :: r in s.inFlight ==> RequestOk(r, s, c))
    && (forall k :: 0 <= k < |s.log| ==> RequestOk(s.log[k].request, s, c))
    && (s.timer ==> c.hunting && s.token !in s.loops)
  }

  predicate LoopOk(l: Loop) {
    l.from <= l.asked <= WaveEnd(l.from, |l.targets|) && l.from <= |l.targets|
  }

  /** The first asking of a wave: by the loop of its own search, for a provider of the wave. */
  predicate InWave(r: Request, loops: map<nat, Loop>) {
    && r.token in loops && r.text == loops[r.token].text && LoopOk(loops[r.token])
    && exists i :: loops[r.token].from <= i < loops[r.token].asked && loops[r.token].targets[i] == r.provider
  }

  ghost predicate LoopsOk(s: State, c: Current) {
    && (forall t :: t in s.loops ==> t <= s.token && LoopOk(s.loops[t]))
    && (forall r :: r in s.inFlight && r.kind == First ==> InWave(r, s.loops))
    && (s.token in s.loops ==>
          c.hunting && s.loops[s.token].text == c.term && s.loops[s.token].targets == c.targets)
  }

  /** How many of the providers were asked so far. */
  function Asked(s: State, c: Current): nat {
    if s.timer then 0 else if s.token in s.loops then s.loops[s.token].asked else |c.targets|
  }

  ghost predicate AskedOk(s: State, c: Current) {
    c.hunting ==> forall i :: 0 <= i < |c.targets| ==>
      (i < Asked(s, c) <==> LastAbout(s.log, s.token, c.targets[i]) != None)
  }

  ghost predicate Core(s: State, c: Current) {
    CurrentOk(c) && ScreenOk(s, c) && FlightOk(s) && TokensOk(s, c) && LoopsOk(s, c) && AskedOk(s, c)
  }

  /** Every loop waits for a wave that is out. */
  ghost predicate LoopsWait(s: State) {
    forall t :: t in s.loops ==> WaveIsOut(s, t)
  }

  /** A loop has asked the whole of its wave. */
  predicate IsFull(l: Loop) {
    l.asked == WaveEnd(l.from, |l.targets|)
  }

  ghost predicate WavesFull(s: State) {
    forall t :: t in s.loops ==> IsFull(s.loops[t])
  }

  ghost predicate OthersStand(s: State, t: State) {
    forall token :: token in s.loops && token != s.token ==> token in t.loops && t.loops[token] == s.loops[token]
  }

  // ---- the history

  lemma LastAboutAppend(log: seq<Entry>, e: Entry, token: nat, provider: string)
    ensures LastAbout(log + [e], token, provider)
      == if IsAbout(e, token, provider) then Some(e) else LastAbout(log, token, provider)
  {
    assert (log + [e])[..|log|] == log;
  }

  lemma AppendForAll(log: seq<Entry>, e: Entry)
    ensures forall token, provider ::
      LastAbout(log + [e], token, provider) == (if IsAbout(e, token, provider) then Some(e) else LastAbout(log, token, provider))
  {
    forall token, provider
      ensures LastAbout(log + [e], token, provider)
        == if IsAbout(e, token, provider) then Some(e) else LastAbout(log, token, provider)
    {
      LastAboutAppend(log, e, token, provider);
    }
  }

  lemma {:induction false} LastAboutIsInLog(log: seq<Entry>, token: nat, provider: string)
    ensures LastAbout(log, token, provider).Some? ==>
      LastAbout(log, token, provider).value in log && IsAbout(LastAbout(log, token, provider).value, token, provider)
  {
    if log != [] {
      LastAboutIsInLog(log[..|log| - 1], token, provider);
    }
  }

  /** Nothing was sent yet for a search that has not begun. */
  lemma {:induction false} NothingBefore(log: seq<Entry>, token: nat, provider: string)
    requires forall k :: 0 <= k < |log| ==> log[k].request.token < token
    ensures LastAbout(log, token, provider) == None
  {
    if log != [] {
      NothingBefore(log[..|log| - 1], token, provider);
    }
  }

  // ---- asking

  lemma AskNextKeepsScreen(s: State, c: Current)
    requires Core(s, c) && s.token in s.loops && s.loops[s.token].asked < |s.loops[s.token].targets|
    ensures ScreenOk(AskNext(s), c) && AskedOk(AskNext(s), c)
  {
    var l := s.loops[s.token];
    var e := Sent(Request(First, s.token, l.targets[l.asked], l.text));
    AppendForAll(s.log, e);
  }

  lemma AskNextKeepsFlight(s: State, c: Current)
    requires Core(s, c) && s.token in s.loops && s.loops[s.token].asked < WaveEnd(s.loops[s.token].from, |s.loops[s.token].targets|)
    ensures FlightOk(AskNext(s)) && TokensOk(AskNext(s), c) && LoopsOk(AskNext(s), c)
  {
    var l, t := s.loops[s.token], AskNext(s);
    var r := Request(First, s.token, l.targets[l.asked], l.text);
    AppendForAll(s.log, Sent(r));
    assert LastAbout(s.log, s.token, l.targets[l.asked]) == None;
    forall q | q in t.inFlight && q.kind == First
      ensures InWave(q, t.loops)
    {
      if q == r {
        assert t.loops[q.token].targets[l.asked] == q.provider;
      }
    }
  }

  lemma AskNextKeepsCore(s: State, c: Current)
    requires Core(s, c) && s.token in s.loops && s.loops[s.token].asked < WaveEnd(s.loops[s.token].from, |s.loops[s.token].targets|)
    ensures Core(AskNext(s), c)
  {
    AskNextKeepsScreen(s, c);
    AskNextKeepsFlight(s, c);
  }

  lemma {:induction false} AskWaveKeepsCore(s: State, c: Current)
    requires Core(s, c) && s.token in s.loops
    ensures Core(AskWave(s), c)
    ensures AskWave(s).token == s.token && s.inFlight <= AskWave(s).inFlight && AskWave(s).loops.Keys == s.loops.Keys
    ensures OthersStand(s, AskWave(s)) && IsFull(AskWave(s).loops[s.token])
    ensures s.loops[s.token].asked < WaveEnd(s.loops[s.token].from, |s.loops[s.token].targets|) ==> WaveIsOut(AskWave(s), s.token)
    decreases |s.loops[s.token].targets| - s.loops[s.token].asked
  {
    var l := s.loops[s.token];
    if l.asked < WaveEnd(l.from, |l.targets|) {
      var t := AskNext(s);
      AskNextKeepsCore(s, c);
      AskWaveKeepsCore(t, c);
      var r := Request(First, s.token, l.targets[l.asked], l.text);
      assert r in t.inFlight && r in AskWave(s).inFlight;
    }
  }

  /** A request to the whole index is about no provider. */
  lemma SendToAllKeepsCore(s: State, c: Current, r: Request)
    requires Core(s, c) && !IsGroupRequest(r) && RequestOk(r, s, c)
    ensures Core(Send(s, r), c)
  {
    AppendForAll(s.log, Sent(r));
  }

  /** The loop moves on to its next wave, or ends, when nothing of the one before is out. */
  lemma MovingOnKeepsCore(s: State, c: Current, l: Loop)
    requires Core(s, c) && s.token in s.loops && !WaveIsOut(s, s.token)
    requires l == s.loops[s.token].(from := s.loops[s.token].asked)
    ensures s.loops[s.token].asked <= |c.targets| ==> Core(s.(loops := s.loops[s.token := l]), c)
    ensures s.loops[s.token].asked == |c.targets| ==> Core(s.(loops := s.loops - {s.token}), c)
  {
    forall r, loops | r in s.inFlight && r.kind == First && (loops == s.loops - {s.token} || loops == s.loops[s.token := l])
      ensures InWave(r, loops)
    {
      assert InWave(r, s.loops) && r.token != s.token;
    }
  }

  /** Nothing else changes while a wave is asked. */
  lemma OneWaveMore(s: State, t: State)
    requires s.inFlight <= t.inFlight && t.loops.Keys == s.loops.Keys && OthersStand(s, t)
    requires s.token in s.loops && WaveIsOut(t, s.token) && IsFull(t.loops[s.token])
    requires OthersWait(s)
    ensures LoopsWait(t) && WavesFull(t)
  {
    OutStaysOut(s, t);
  }

  /** The wave behind is asked when none of the one before is left. */
  lemma FollowingWaveKeepsCore(s: State, c: Current, l: Loop)
    requires Core(s.(loops := s.loops[s.token := l]), c) && s.token in s.loops && l.from == l.asked < |l.targets|
    ensures var t := AskWave(s.(loops := s.loops[s.token := l]));
      Core(t, c) && (OthersWait(s) ==> LoopsWait(t) && WavesFull(t))
  {
    var t := s.(loops := s.loops[s.token := l]);
    AskWaveKeepsCore(t, c);
    if OthersWait(s) {
      OutStaysOut(s, t);
      OneWaveMore(t, AskWave(t));
    }
  }

  lemma LastWaveKeepsCore(s: State, c: Current)
    requires Core(s.(loops := s.loops - {s.token}), c) && s.token in s.loops && OthersWait(s)
    requires c.hunting && !s.timer
    ensures var done := s.(loops := s.loops - {s.token});
      && LoopsWait(done) && WavesFull(done)
      && var t := Send(done, Request(Count, s.token, "", c.term)); Core(t, c) && LoopsWait(t) && WavesFull(t)
  {
    var done := s.(loops := s.loops - {s.token});
    SendToAllKeepsCore(done, c, Request(Count, s.token, "", c.term));
    OutStaysOut(s, done);
    OutStaysOut(done, Send(done, Request(Count, s.token, "", c.term)));
  }

  ghost predicate OthersWait(s: State) {
    forall token :: token in s.loops && token != s.token ==> WaveIsOut(s, token) && IsFull(s.loops[token])
  }

  /** The next wave begins when none of the one before is left. */
  lemma NextWaveKeepsCore(s: State, c: Current)
    requires Core(s, c) && s.token in s.loops && !WaveIsOut(s, s.token)
    requires WavesFull(s) && OthersWait(s)
    ensures Core(NextWave(s), c) && LoopsWait(NextWave(s)) && WavesFull(NextWave(s))
  {
    var l := s.loops[s.token];
    MovingOnKeepsCore(s, c, l.(from := l.asked));
    if l.asked < |l.targets| {
      FollowingWaveKeepsCore(s, c, l.(from := l.asked));
    } else {
      LastWaveKeepsCore(s, c);
    }
  }

  lemma OutStaysOut(s: State, t: State)
    requires s.inFlight <= t.inFlight
    ensures forall token :: WaveIsOut(s, token) ==> WaveIsOut(t, token)
  {
  }

  // ---- answers

  lemma OverKeepsFlight(s: State, c: Current, r: Request, e: Entry)
    requires Core(s, c) && r in s.inFlight && e.request == r && !e.Sent? && (e.Suggested? ==> r.kind == Titles)
    ensures FlightOk(Over(s, r, e)) && TokensOk(Over(s, r, e), c) && LoopsOk(Over(s, r, e), c)
    ensures AskedOk(Over(s, r, e), c)
  {
    AppendForAll(s.log, e);
  }

  /** What comes for the current search changes its own provider's group, anything else nothing. */
  lemma ShownKeepsCore(s: State, c: Current, r: Request, e: Entry)
    requires Core(s, c) && r in s.inFlight && e.request == r && !e.Sent? && (e.Suggested? ==> r.kind == Titles)
    ensures Core(Shown(Over(s, r, e), r, e), c)
  {
    OverKeepsFlight(s, c, r, e);
    ShownKeepsScreen(s, c, r, e);
    OnlyTheScreen(Over(s, r, e), c, r, e);
  }

  lemma ShownKeepsScreen(s: State, c: Current, r: Request, e: Entry)
    requires ScreenOk(s, c) && RequestOk(r, s, c)
    requires e.request == r && !e.Sent? && (e.Suggested? ==> r.kind == Titles)
    ensures ScreenOk(Shown(Over(s, r, e), r, e), c)
  {
    AppendForAll(s.log, e);
    if r.token == s.token && IsGroupRequest(r) {
      var next := if e.Came? then GroupFromAnswer(r.provider, e.result) else GroupFromError(r.provider, e.failure);
      assert GroupNow(Some(e), r.provider) == next;
      OneGroupMore(s, c, e, next);
    } else {
      assert Shown(Over(s, r, e), r, e).groups == s.groups;
    }
  }

  lemma OneGroupMore(s: State, c: Current, e: Entry, next: Group)
    requires ScreenOk(s, c) && c.hunting && IsGroupRequest(e.request) && e.request.token == s.token && !e.Suggested?
    requires next == GroupNow(Some(e), e.request.provider)
    ensures ScreenOk(s.(groups := WithGroup(s.groups, next), log := s.log + [e]), c)
  {
    AppendForAll(s.log, e);
  }

  /** What an answer shows leaves the requests and the loops alone. */
  lemma OnlyTheScreen(s: State, c: Current, r: Request, e: Entry)
    requires FlightOk(s) && TokensOk(s, c) && LoopsOk(s, c) && AskedOk(s, c)
    ensures var t := Shown(s, r, e); FlightOk(t) && TokensOk(t, c) && LoopsOk(t, c) && AskedOk(t, c)
  {
  }

  /** After an answer to a first asking its loop goes on if the wave is in. */
  lemma ContinueKeepsCore(s: State, c: Current, token: nat)
    requires Core(s, c) && forall t :: t in s.loops && t != token ==> WaveIsOut(s, t)
    requires WavesFull(s)
    ensures Core(Continue(s, token), c) && LoopsWait(Continue(s, token)) && WavesFull(Continue(s, token))
  {
    if token in s.loops && !WaveIsOut(s, token) {
      if token == s.token {
        NextWaveKeepsCore(s, c);
      } else {
        var t := s.(loops := s.loops - {token});
        forall r | r in t.inFlight && r.kind == First
          ensures InWave(r, t.loops)
        {
          assert InWave(r, s.loops) && r.token != token;
        }
        OutStaysOut(s, t);
      }
    }
  }

  lemma ReceiveKeepsCore(s: State, c: Current, r: Request, e: Entry)
    requires Core(s, c) && LoopsWait(s) && WavesFull(s)
    requires r in s.inFlight && e.request == r && !e.Sent? && (e.Suggested? ==> r.kind == Titles)
    ensures Core(Receive(s, r, e), c) && LoopsWait(Receive(s, r, e)) && WavesFull(Receive(s, r, e))
  {
    ShownKeepsCore(s, c, r, e);
    OneLessOut(s, r, e);
    if r.kind == First {
      ContinueKeepsCore(Shown(Over(s, r, e), r, e), c, r.token);
    }
  }

  /** An answer ends at most the wave of its own search. */
  lemma OneLessOut(s: State, r: Request, e: Entry)
    requires LoopsWait(s) && WavesFull(s)
    ensures var t := Shown(Over(s, r, e), r, e);
      && WavesFull(t) && t.loops == s.loops
      && forall token :: token in t.loops && (r.kind != First || token != r.token) ==> WaveIsOut(t, token)
  {
    var t := Shown(Over(s, r, e), r, e);
    forall token | token in t.loops && (r.kind != First || token != r.token)
      ensures WaveIsOut(t, token)
    {
      var q :| q in s.inFlight && q.kind == First && q.token == token;
      assert q in t.inFlight;
    }
  }

  // ---- keystrokes, the timer and retries

  lemma TargetsAreDistinct(s: State)
    ensures CurrentOk(CurrentOf(s))
  {
  }

  /** A new search starts from nothing; what is out for earlier ones stays out. */
  lemma BeginKeepsCore(s: State, c: Current, t: State, d: Current)
    requires Core(s, c) && LoopsWait(s) && WavesFull(s) && CurrentOk(d)
    requires t.token == s.token + 1 && t.log == s.log && t.inFlight == s.inFlight && t.loops == s.loops
    requires t.timer == d.hunting && t.groups == (if d.hunting then PendingGroups(d.targets) else [])
    ensures Core(t, d) && LoopsWait(t) && WavesFull(t)
  {
    forall provider
      ensures LastAbout(t.log, t.token, provider) == None
    {
      NothingBefore(t.log, t.token, provider);
    }
    forall token | token in t.loops
      ensures WaveIsOut(t, token)
    {
      var q :| q in s.inFlight && q.kind == First && q.token == token;
      assert q in t.inFlight;
    }
  }

  lemma EffectKeepsCore(s: State, c: Current, query: string)
    requires Core(s, c) && LoopsWait(s) && WavesFull(s)
    ensures var t := Effect(s.(query := query)); Core(t, CurrentOf(t)) && LoopsWait(t) && WavesFull(t)
  {
    var t := Effect(s.(query := query));
    TargetsAreDistinct(t);
    BeginKeepsCore(s, c, t, CurrentOf(t));
  }

  function Begun(s: State, c: Current): State {
    s.(timer := false, loops := s.loops[s.token := Loop(c.term, c.targets, 0, 0)])
  }

  lemma TimerKeepsCore(s: State, c: Current)
    requires Core(s, c) && LoopsWait(s) && WavesFull(s) && s.timer
    ensures var t := Send(AskWave(Begun(s, c)), Request(Titles, s.token, "", c.term));
      Core(t, c) && LoopsWait(t) && WavesFull(t)
  {
    TimerBegins(s, c);
    OutStaysOut(s, Begun(s, c));
    FirstWaveGoesOut(Begun(s, c), c);
    AskWaveStays(Begun(s, c));
    TitlesKeepCore(AskWave(Begun(s, c)), c);
  }

  lemma FirstWaveGoesOut(s: State, c: Current)
    requires Core(s, c) && OthersWait(s) && s.token in s.loops && s.loops[s.token] == Loop(c.term, c.targets, 0, 0)
    ensures Core(AskWave(s), c) && LoopsWait(AskWave(s)) && WavesFull(AskWave(s))
  {
    assert s.(loops := s.loops[s.token := s.loops[s.token]]) == s;
    FollowingWaveKeepsCore(s, c, s.loops[s.token]);
  }

  lemma {:induction false} AskWaveStays(s: State)
    requires s.token in s.loops && s.loops[s.token].asked <= |s.loops[s.token].targets|
    ensures AskWave(s).token == s.token && AskWave(s).loops.Keys == s.loops.Keys
    ensures AskWave(s).query == s.query && AskWave(s).terms == s.terms && AskWave(s).answer == s.answer
    decreases |s.loops[s.token].targets| - s.loops[s.token].asked
  {
    if s.loops[s.token].asked < WaveEnd(s.loops[s.token].from, |s.loops[s.token].targets|) {
      AskWaveStays(AskNext(s));
    }
  }

  lemma TitlesKeepCore(s: State, c: Current)
    requires Core(s, c) && LoopsWait(s) && WavesFull(s) && s.token in s.loops
    ensures var t := Send(s, Request(Titles, s.token, "", c.term)); Core(t, c) && LoopsWait(t) && WavesFull(t)
  {
    var r := Request(Titles, s.token, "", c.term);
    assert RequestOk(r, s, c);
    SendToAllKeepsCore(s, c, r);
    OutStaysOut(s, Send(s, r));
  }

  lemma TimerBegins(s: State, c: Current)
    requires Core(s, c) && s.timer
    ensures Core(Begun(s, c), c)
  {
    var t := Begun(s, c);
    forall r | r in t.inFlight && r.kind == First
      ensures InWave(r, t.loops)
    {
      assert InWave(r, s.loops) && r.token != s.token;
    }
  }

  lemma RetryKeepsCore(s: State, c: Current, provider: string)
    requires Core(s, c) && LoopsWait(s) && WavesFull(s) && OffersRetry(s, provider)
    ensures var t := Send(s.(groups := WithGroup(s.groups, PendingGroup(provider))), Request(Again, s.token, provider, c.term));
      Core(t, c) && LoopsWait(t) && WavesFull(t)
  {
    AnErrorWasTheLast(s, c, provider);
    RetryKeepsScreen(s, c, provider);
    RetryKeepsFlight(s, c, provider);
    OutStaysOut(s, Send(s.(groups := WithGroup(s.groups, PendingGroup(provider))), Request(Again, s.token, provider, c.term)));
  }

  lemma RetryKeepsScreen(s: State, c: Current, provider: string)
    requires ScreenOk(s, c) && AskedOk(s, c) && LastAbout(s.log, s.token, provider).Some?
    ensures var t := Send(s.(groups := WithGroup(s.groups, PendingGroup(provider))), Request(Again, s.token, provider, c.term));
      ScreenOk(t, c) && AskedOk(t, c)
  {
    AppendForAll(s.log, Sent(Request(Again, s.token, provider, c.term)));
  }

  lemma RetryKeepsFlight(s: State, c: Current, provider: string)
    requires FlightOk(s) && TokensOk(s, c) && LoopsOk(s, c) && RequestOk(Request(Again, s.token, provider, c.term), s, c)
    requires LastAbout(s.log, s.token, provider).Some? && LastAbout(s.log, s.token, provider).value.Failed?
    ensures var t := Send(s.(groups := WithGroup(s.groups, PendingGroup(provider))), Request(Again, s.token, provider, c.term));
      FlightOk(t) && TokensOk(t, c) && LoopsOk(t, c)
  {
    AppendForAll(s.log, Sent(Request(Again, s.token, provider, c.term)));
  }

  /** A group that failed has nothing in flight. */
  lemma AnErrorWasTheLast(s: State, c: Current, provider: string)
    requires Core(s, c) && OffersRetry(s, provider)
    ensures LastAbout(s.log, s.token, provider).Some? && LastAbout(s.log, s.token, provider).value.Failed?
    ensures provider in c.targets && RequestOk(Request(Again, s.token, provider, c.term), s, c)
  {
    var k :| 0 <= k < |s.groups| && s.groups[k].provider == provider && s.groups[k].status == Error;
    assert c.targets[k] == provider;
    LastAboutIsInLog(s.log, s.token, provider);
  }

  // ---- every action

  ghost predicate Inv(s: State) {
    Core(s, CurrentOf(s)) && LoopsWait(s) && WavesFull(s)
  }

  lemma NextWaveKeepsQuery(s: State)
    requires s.token in s.loops && s.loops[s.token].asked <= |s.loops[s.token].targets|
    ensures NextWave(s).query == s.query && NextWave(s).token == s.token
    ensures NextWave(s).terms == s.terms && NextWave(s).answer == s.answer
  {
    var l := s.loops[s.token];
    if l.asked < |l.targets| {
      AskWaveStays(s.(loops := s.loops[s.token := l.(from := l.asked)]));
    }
  }

  lemma ReceiveKeepsQuery(s: State, r: Request, e: Entry)
    ensures Receive(s, r, e).query == s.query && Receive(s, r, e).token == s.token
    ensures Receive(s, r, e).terms == Shown(Over(s, r, e), r, e).terms
    ensures Receive(s, r, e).answer == Shown(Over(s, r, e), r, e).answer
  {
    var t := Shown(Over(s, r, e), r, e);
    if r.kind == First && s.token in t.loops && t.loops[s.token].asked <= |t.loops[s.token].targets| {
      NextWaveKeepsQuery(t);
    }
  }

  /** The text of the box matters only through what it asks for. */
  lemma OtherSpelling(s: State, c: Current, query: string)
    requires Core(s, c) && LoopsWait(s) && WavesFull(s)
    ensures var typed := s.(query := query); Core(typed, c) && LoopsWait(typed) && WavesFull(typed)
  {
    OutStaysOut(s, s.(query := query));
  }

  lemma TypingKeepsInv(s: State, query: string)
    requires Inv(s)
    ensures Inv(Apply(s, Type(query)))
  {
    var typed := s.(query := query);
    if CurrentOf(typed) == CurrentOf(s) {
      OtherSpelling(s, CurrentOf(s), query);
    }
    EffectKeepsCore(s, CurrentOf(s), query);
  }

  lemma ReceivingKeepsInv(s: State, r: Request, e: Entry)
    requires Inv(s) && r in s.inFlight && e.request == r && !e.Sent? && (e.Suggested? ==> r.kind == Titles)
    ensures Inv(Receive(s, r, e))
  {
    ReceiveKeepsCore(s, CurrentOf(s), r, e);
    ReceiveKeepsQuery(s, r, e);
  }

  lemma TimerKeepsInv(s: State)
    requires Inv(s)
    ensures Inv(Apply(s, TimerFires))
  {
    if s.timer {
      TimerKeepsCore(s, CurrentOf(s));
      AskWaveStays(Begun(s, CurrentOf(s)));
    }
  }

  lemma RetryKeepsInv(s: State, provider: string)
    requires Inv(s)
    ensures Inv(Apply(s, RetryGroup(provider)))
  {
    if OffersRetry(s, provider) {
      RetryKeepsCore(s, CurrentOf(s), provider);
    }
  }

  lemma ActionKeepsInv(s: State, a: Action)
    requires Inv(s)
    ensures Inv(Apply(s, a))
  {
    match a
    case Type(query) => TypingKeepsInv(s, query);
    case RetryAll => EffectKeepsCore(s, CurrentOf(s), s.query);
    case RetryGroup(provider) => RetryKeepsInv(s, provider);
    case TimerFires => TimerKeepsInv(s);
    case Answer(r, result) =>
      if r in s.inFlight && r.kind != Titles {
        ReceivingKeepsInv(s, r, Came(r, result));
      }
    case Suggest(r, rows) =>
      if r in s.inFlight && r.kind == Titles {
        ReceivingKeepsInv(s, r, Suggested(r, rows));
      }
    case Fail(r, failure) =>
      if r in s.inFlight {
        ReceivingKeepsInv(s, r, Failed(r, failure));
      }
  }

  lemma StartIsOk(query: string)
    ensures Inv(Start(query))
  {
    var blank := State(query, 0, [], [], None, None, false, map[], {}, []);
    TargetsAreDistinct(Start(query));
    BeginKeepsCore(blank, Current(false, "", []), Start(query), CurrentOf(Start(query)));
  }

  lemma {:induction false} EveryRunKeepsInv(query: string, run: seq<Action>)
    ensures Inv(Exec(query, run))
  {
    if run == [] {
      StartIsOk(query);
    } else {
      EveryRunKeepsInv(query, run[..|run| - 1]);
      ActionKeepsInv(Exec(query, run[..|run| - 1]), run[|run| - 1]);
    }
  }
}
