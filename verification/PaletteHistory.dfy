/**
 The parts of the palette that every answer shares: the words to highlight, the count of the whole
 index, and that nothing is asked twice.
 */
module PaletteHistory {
  import opened Options
  import opened PaletteGroups
  import opened PaletteProtocol
  import opened PaletteInvariant

  /** The words of the first answer of a search that had any. */
  function FirstTerms(log: seq<Entry>, token: nat): seq<string> {
    if log == [] then []
    else
      var before, last := FirstTerms(log[..|log| - 1], token), log[|log| - 1];
      if before == [] && last.Came? && last.request.token == token then last.result.terms else before
  }

  /** The last count of the whole index that came for a search. */
  function LastCount(log: seq<Entry>, token: nat): Option<SearchResult> {
    if log == [] then None
    else
      var last := log[|log| - 1];
      if last.Came? && last.request.kind == Count && last.request.token == token then Some(last.result)
      else LastCount(log[..|log| - 1], token)
  }

  ghost predicate SharedOk(s: State) {
    s.terms == FirstTerms(s.log, s.token) && s.answer == LastCount(s.log, s.token)
  }

  /** Only a retry is ever asked again. */
  ghost predicate OnceOk(log: seq<Entry>) {
    forall i, k :: 0 <= i < k < |log| && log[i].Sent? && log[k] == log[i] ==> log[i].request.kind == Again
  }

  /** The count is asked behind the last wave. */
  ghost predicate CountOk(s: State) {
    forall k :: 0 <= k < |s.log| && s.log[k].request.kind == Count && s.log[k].request.token == s.token ==>
      s.token !in s.loops
  }

  ghost predicate HistoryOk(s: State) {
    SharedOk(s) && OnceOk(s.log) && CountOk(s) && forall r :: r in s.inFlight ==> Sent(r) in s.log
  }

  lemma SharedOfAppend(log: seq<Entry>, e: Entry, token: nat)
    ensures FirstTerms(log + [e], token) == (
      if FirstTerms(log, token) == [] && e.Came? && e.request.token == token then e.result.terms else FirstTerms(log, token))
    ensures LastCount(log + [e], token) == (
      if e.Came? && e.request.kind == Count && e.request.token == token then Some(e.result) else LastCount(log, token))
  {
    assert (log + [e])[..|log|] == log;
  }

  lemma {:induction false} NothingShared(log: seq<Entry>, token: nat)
    requires forall k :: 0 <= k < |log| ==> log[k].request.token != token
    ensures FirstTerms(log, token) == [] && LastCount(log, token) == None
  {
    if log != [] {
      NothingShared(log[..|log| - 1], token);
    }
  }

  lemma {:induction false} NoneMeansNotSent(log: seq<Entry>, r: Request)
    requires IsGroupRequest(r) && LastAbout(log, r.token, r.provider) == None
    ensures Sent(r) !in log
  {
    if log != [] {
      NoneMeansNotSent(log[..|log| - 1], r);
      assert log == log[..|log| - 1] + [log[|log| - 1]];
    }
  }

  lemma SendKeepsHistory(s: State, r: Request)
    requires HistoryOk(s) && (r.kind == Again || Sent(r) !in s.log)
    requires r.kind == Count && r.token == s.token ==> s.token !in s.loops
    ensures HistoryOk(Send(s, r))
  {
    SharedOfAppend(s.log, Sent(r), s.token);
  }

  lemma {:induction false} AskWaveKeepsHistory(s: State, c: Current)
    requires Core(s, c) && HistoryOk(s) && s.token in s.loops
    ensures HistoryOk(AskWave(s))
    ensures forall r: Request :: r.kind == Titles && Sent(r) in AskWave(s).log ==> Sent(r) in s.log
    decreases |s.loops[s.token].targets| - s.loops[s.token].asked
  {
    var l := s.loops[s.token];
    if l.asked < WaveEnd(l.from, |l.targets|) {
      AskNextKeepsCore(s, c);
      NextIsNew(s, c);
      SendKeepsHistory(s, Request(First, s.token, l.targets[l.asked], l.text));
      assert HistoryOk(AskNext(s));
      AskWaveKeepsHistory(AskNext(s), c);
    }
  }

  lemma NextIsNew(s: State, c: Current)
    requires Core(s, c) && s.token in s.loops && s.loops[s.token].asked < |s.loops[s.token].targets|
    ensures Sent(Request(First, s.token, s.loops[s.token].targets[s.loops[s.token].asked], s.loops[s.token].text)) !in s.log
  {
    var l := s.loops[s.token];
    assert LastAbout(s.log, s.token, c.targets[l.asked]) == None;
    NoneMeansNotSent(s.log, Request(First, s.token, l.targets[l.asked], l.text));
  }

  lemma NextWaveKeepsHistory(s: State, c: Current)
    requires Core(s, c) && HistoryOk(s) && s.token in s.loops && !WaveIsOut(s, s.token)
    ensures HistoryOk(NextWave(s))
  {
    var l := s.loops[s.token];
    MovingOnKeepsCore(s, c, l.(from := l.asked));
    if l.asked < |l.targets| {
      AskWaveKeepsHistory(s.(loops := s.loops[s.token := l.(from := l.asked)]), c);
    } else {
      SendKeepsHistory(s.(loops := s.loops - {s.token}), Request(Count, s.token, "", l.text));
    }
  }

  lemma ShownKeepsHistory(s: State, r: Request, e: Entry)
    requires HistoryOk(s) && e.request == r && !e.Sent? && (e.Came? ==> r.kind != Titles)
    requires r.kind == Count && r.token == s.token ==> s.token !in s.loops
    ensures HistoryOk(Shown(Over(s, r, e), r, e))
  {
    ShownKeepsShared(s, r, e);
    NothingSentKeepsOnce(s.log, e);
    ShownKeepsCount(s, r, e);
  }

  lemma ShownKeepsShared(s: State, r: Request, e: Entry)
    requires SharedOk(s) && e.request == r && !e.Sent? && (e.Came? ==> r.kind != Titles)
    ensures SharedOk(Shown(Over(s, r, e), r, e))
  {
    SharedOfAppend(s.log, e, s.token);
  }

  lemma NothingSentKeepsOnce(log: seq<Entry>, e: Entry)
    requires OnceOk(log) && !e.Sent?
    ensures OnceOk(log + [e])
  {
  }

  lemma ShownKeepsCount(s: State, r: Request, e: Entry)
    requires CountOk(s) && e.request == r && (r.kind == Count && r.token == s.token ==> s.token !in s.loops)
    requires forall q :: q in s.inFlight ==> Sent(q) in s.log
    ensures var t := Shown(Over(s, r, e), r, e); CountOk(t) && forall q :: q in t.inFlight ==> Sent(q) in t.log
  {
  }

  lemma ReceiveKeepsHistory(s: State, c: Current, r: Request, e: Entry)
    requires Core(s, c) && HistoryOk(s) && r in s.inFlight
    requires e.request == r && !e.Sent? && (e.Came? ==> r.kind != Titles) && (e.Suggested? ==> r.kind == Titles)
    ensures HistoryOk(Receive(s, r, e))
  {
    var t := Shown(Over(s, r, e), r, e);
    if r.kind == Count && r.token == s.token {
      var k :| 0 <= k < |s.log| && s.log[k] == Sent(r);
      assert s.log[k].request.kind == Count;
    }
    ShownKeepsHistory(s, r, e);
    if r.kind == First && r.token == s.token && s.token in t.loops && !WaveIsOut(t, s.token) {
      ShownKeepsCore(s, c, r, e);
      NextWaveKeepsHistory(t, c);
    }
  }

  // ---- every action

  lemma EffectKeepsHistory(s: State, c: Current, query: string)
    requires Core(s, c) && HistoryOk(s)
    ensures HistoryOk(Effect(s.(query := query)))
  {
    NothingShared(s.log, s.token + 1);
  }

  lemma TimerKeepsHistory(s: State, c: Current)
    requires Core(s, c) && HistoryOk(s) && s.timer
    ensures HistoryOk(Send(AskWave(Begun(s, c)), Request(Titles, s.token, "", c.term)))
  {
    var r := Request(Titles, s.token, "", c.term);
    TimerBegins(s, c);
    NothingSentYet(s, c);
    AskWaveKeepsHistory(Begun(s, c), c);
    AskWaveStays(Begun(s, c));
    SendKeepsHistory(AskWave(Begun(s, c)), r);
  }

  /** While the pause runs nothing of the search went out. */
  lemma NothingSentYet(s: State, c: Current)
    requires TokensOk(s, c) && s.timer
    ensures forall k :: 0 <= k < |s.log| ==> s.log[k].request.token != s.token
    ensures HistoryOk(s) ==> HistoryOk(Begun(s, c))
    ensures forall r: Request :: r.token == s.token ==> Sent(r) !in Begun(s, c).log
  {
    forall k | 0 <= k < |s.log|
      ensures s.log[k].request.token != s.token
    {
      assert RequestOk(s.log[k].request, s, c);
    }
  }

  lemma ActionKeepsHistory(s: State, a: Action)
    requires Inv(s) && HistoryOk(s)
    ensures HistoryOk(Apply(s, a))
  {
    match a
    case Type(query) => TypingKeepsHistory(s, query);
    case RetryAll => EffectKeepsHistory(s, CurrentOf(s), s.query);
    case RetryGroup(provider) => RetryKeepsHistory(s, provider);
    case TimerFires =>
      if s.timer {
        TimerKeepsHistory(s, CurrentOf(s));
      }
    case _ => NetworkKeepsHistory(s, a);
  }

  lemma TypingKeepsHistory(s: State, query: string)
    requires Inv(s) && HistoryOk(s)
    ensures HistoryOk(Apply(s, Type(query)))
  {
    EffectKeepsHistory(s, CurrentOf(s), query);
  }

  lemma RetryKeepsHistory(s: State, provider: string)
    requires HistoryOk(s)
    ensures HistoryOk(Apply(s, RetryGroup(provider)))
  {
    SendKeepsHistory(s.(groups := WithGroup(s.groups, PendingGroup(provider))), Request(Again, s.token, provider, Term(s)));
  }

  lemma NetworkKeepsHistory(s: State, a: Action)
    requires Inv(s) && HistoryOk(s) && (a.Answer? || a.Suggest? || a.Fail?)
    ensures HistoryOk(Apply(s, a))
  {
    ApplyReceives(s, a);
    if Delivers(s, a) {
      ReceiveKeepsHistory(s, CurrentOf(s), a.request, EntryOf(a));
    }
  }

  /** The network can bring this: the request is in flight, and it is an answer of its kind. */
  predicate Delivers(s: State, a: Action)
    requires a.Answer? || a.Suggest? || a.Fail?
  {
    a.request in s.inFlight && (a.Answer? ==> a.request.kind != Titles) && (a.Suggest? ==> a.request.kind == Titles)
  }

  lemma ApplyReceives(s: State, a: Action)
    requires a.Answer? || a.Suggest? || a.Fail?
    ensures Apply(s, a) == if Delivers(s, a) then Receive(s, a.request, EntryOf(a)) else s
  {
  }

  function EntryOf(a: Action): Entry
    requires a.Answer? || a.Suggest? || a.Fail?
  {
    match a
    case Answer(r, result) => Came(r, result)
    case Suggest(r, rows) => Suggested(r, rows)
    case Fail(r, failure) => Failed(r, failure)
  }

  lemma {:induction false} EveryRunKeepsHistory(query: string, run: seq<Action>)
    ensures HistoryOk(Exec(query, run))
  {
    if run != [] {
      EveryRunKeepsHistory(query, run[..|run| - 1]);
      EveryRunKeepsInv(query, run[..|run| - 1]);
      ActionKeepsHistory(Exec(query, run[..|run| - 1]), run[|run| - 1]);
    }
  }

  // ---- what it says

  lemma {:induction false} FirstTermsAreTheFirst(log: seq<Entry>, token: nat) returns (k: nat)
    requires FirstTerms(log, token) != []
    ensures k < |log| && log[k].Came? && log[k].request.token == token && log[k].result.terms == FirstTerms(log, token)
    ensures forall i :: 0 <= i < k && log[i].Came? && log[i].request.token == token ==> log[i].result.terms == []
  {
    var before := log[..|log| - 1];
    if FirstTerms(before, token) != [] {
      k := FirstTermsAreTheFirst(before, token);
      assert forall i :: 0 <= i <= k ==> before[i] == log[i];
    } else {
      k := |log| - 1;
      NoTermsBefore(before, token);
      assert forall i :: 0 <= i < k ==> before[i] == log[i];
    }
  }

  lemma {:induction false} NoTermsBefore(log: seq<Entry>, token: nat)
    requires FirstTerms(log, token) == []
    ensures forall i :: 0 <= i < |log| && log[i].Came? && log[i].request.token == token ==> log[i].result.terms == []
  {
    if log != [] {
      NoTermsBefore(log[..|log| - 1], token);
      assert forall i :: 0 <= i < |log| - 1 ==> log[..|log| - 1][i] == log[i];
    }
  }

  lemma {:induction false} LastCountCame(log: seq<Entry>, token: nat) returns (k: nat)
    requires LastCount(log, token).Some?
    ensures k < |log| && log[k].Came? && log[k].request.kind == Count && log[k].request.token == token
    ensures log[k].result == LastCount(log, token).value
  {
    var last := log[|log| - 1];
    if last.Came? && last.request.kind == Count && last.request.token == token {
      k := |log| - 1;
    } else {
      k := LastCountCame(log[..|log| - 1], token);
    }
  }

  /** Entry `k` of the history is an answer to the words in the box, asked by the current search. */
  predicate IsForTheBox(s: State, k: nat) {
    k < |s.log| && s.log[k].Came? && s.log[k].request.token == s.token && s.log[k].request.text == Term(s)
  }

  /**
   In every run: the words highlighted are those of the first answer to the words in the box that
   carried any, the count shown is an answer to the words in the box that was asked after the
   whole first pass was over, and nothing but a retry is ever asked twice.
   */
  lemma SharedAnswersAreToTheBox(query: string, run: seq<Action>)
    ensures var s := Exec(query, run);
      && (s.terms != [] ==> exists k: nat :: IsForTheBox(s, k) && s.log[k].result.terms == s.terms)
      && (s.answer.Some? ==> s.token !in s.loops)
      && (s.answer.Some? ==>
            exists k: nat :: IsForTheBox(s, k) && s.log[k].request.kind == Count && s.log[k].result == s.answer.value)
      && OnceOk(s.log)
  {
    var s := Exec(query, run);
    EveryRunKeepsInv(query, run);
    EveryRunKeepsHistory(query, run);
    if s.terms != [] {
      var k := FirstTermsAreTheFirst(s.log, s.token);
      assert RequestOk(s.log[k].request, s, CurrentOf(s));
    }
    if s.answer.Some? {
      var k := LastCountCame(s.log, s.token);
      assert RequestOk(s.log[k].request, s, CurrentOf(s));
    }
  }
}
