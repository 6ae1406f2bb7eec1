/** Runs of the palette that its comments do not expect. */
module PaletteWitness {
  import opened Options
  import opened Text
  import opened CommandCenter
  import opened PaletteGroups
  import opened PaletteProtocol
  import opened PaletteInvariant
  import opened PaletteTheorems
  import Lists

  /** The first-pass requests in flight, of any search. */
  function AllFirst(s: State): set<Request> {
    set r | r in s.inFlight && r.kind == First
  }

  lemma {:induction false} AskWaveAdds(s: State, c: Current)
    requires Core(s, c) && s.token in s.loops
    ensures |AllFirst(AskWave(s))| == |AllFirst(s)| + WaveEnd(s.loops[s.token].from, |s.loops[s.token].targets|) - s.loops[s.token].asked
    decreases |s.loops[s.token].targets| - s.loops[s.token].asked
  {
    var l := s.loops[s.token];
    if l.asked < WaveEnd(l.from, |l.targets|) {
      var r := Request(First, s.token, l.targets[l.asked], l.text);
      NewRequest(s, c, r);
      AskNextKeepsCore(s, c);
      assert AllFirst(AskNext(s)) == AllFirst(s) + {r};
      AskWaveAdds(AskNext(s), c);
    }
  }

  lemma NewRequest(s: State, c: Current, r: Request)
    requires Core(s, c) && s.token in s.loops && s.loops[s.token].asked < |s.loops[s.token].targets|
    requires r == Request(First, s.token, s.loops[s.token].targets[s.loops[s.token].asked], s.loops[s.token].text)
    ensures r !in s.inFlight
  {
    assert LastAbout(s.log, s.token, c.targets[s.loops[s.token].asked]) == None;
  }

  // ---- at most three for each loop that waits

  lemma {:induction false} FewForEachLoop(s: State, tokens: set<nat>)
    requires forall r :: r in s.inFlight && r.kind == First ==> InWave(r, s.loops)
    ensures |set r | r in s.inFlight && r.kind == First && r.token in tokens| <= GROUP_CONCURRENCY * |tokens|
  {
    var those := set r | r in s.inFlight && r.kind == First && r.token in tokens;
    if tokens == {} {
      assert those == {};
    } else {
      var token :| token in tokens;
      var rest := set r | r in s.inFlight && r.kind == First && r.token in tokens - {token};
      var one := set r | r in s.inFlight && r.kind == First && r.token == token;
      FewForEachLoop(s, tokens - {token});
      FewForOne(s, token);
      assert those == rest + one;
      UnionIsSmall(rest, one);
    }
  }

  lemma UnionIsSmall<T>(a: set<T>, b: set<T>)
    ensures |a + b| <= |a| + |b|
  {
    assert a + b == a + (b - a) && b - a <= b;
    Lists.SubsetIsSmaller(b - a, b);
  }

  lemma FewForOne(s: State, token: nat)
    requires forall r :: r in s.inFlight && r.kind == First ==> InWave(r, s.loops)
    ensures |set r | r in s.inFlight && r.kind == First && r.token == token| <= GROUP_CONCURRENCY
  {
    var those := set r | r in s.inFlight && r.kind == First && r.token == token;
    if token in s.loops && LoopOk(s.loops[token]) {
      var l := s.loops[token];
      var wave := set i | l.from <= i < l.asked :: Request(First, token, l.targets[i], l.text);
      assert those <= wave;
      WaveIsSmall(l, token, l.asked);
      Lists.SubsetIsSmaller(those, wave);
    } else {
      assert those == {};
    }
  }

  /** In every run at most three first-pass requests are in flight for each loop that still waits. */
  lemma ThreeForEachLoop(query: string, run: seq<Action>)
    ensures |AllFirst(Exec(query, run))| <= GROUP_CONCURRENCY * |Exec(query, run).loops|
  {
    var s := Exec(query, run);
    EveryRunKeepsInv(query, run);
    assert forall r :: r in s.inFlight && r.kind == First ==> InWave(r, s.loops);
    FewForEachLoop(s, s.loops.Keys);
    assert AllFirst(s) == set r | r in s.inFlight && r.kind == First && r.token in s.loops.Keys;
  }

  /** Two letters are a search of the whole index. */
  lemma TwoLetters(query: string)
    requires query == "aa" || query == "bb"
    ensures ReadMode(query) == Reading(All, query, "")
  {
    assert !IsSpace(query[0]) && !IsSpace(query[1]);
    TrimStartStops(query);
    assert TrimEnd(query) == query;
  }

  /** Ready for the next keystroke: a search of the whole index whose pause is running. */
  ghost predicate Poised(s: State, query: string) {
    s.query == query && s.timer && Inv(s)
  }

  lemma FiringAdds(s: State)
    requires Inv(s) && s.timer && ReadMode(s.query).mode == All
    ensures var t := Apply(s, TimerFires);
      |AllFirst(t)| == |AllFirst(s)| + GROUP_CONCURRENCY && t.query == s.query && t.token == s.token
  {
    var c := CurrentOf(s);
    FirstWaveAdds(s, c);
    AskWaveStays(Begun(s, c));
    assert AllFirst(Apply(s, TimerFires)) == AllFirst(AskWave(Begun(s, c)));
  }

  lemma FirstWaveAdds(s: State, c: Current)
    requires Core(s, c) && s.timer
    ensures |AllFirst(AskWave(Begun(s, c)))| == |AllFirst(s)| + WaveEnd(0, |c.targets|)
  {
    TimerBegins(s, c);
    AskWaveAdds(Begun(s, c), c);
    assert AllFirst(Begun(s, c)) == AllFirst(s);
  }

  lemma TypingSendsNothing(s: State, query: string, next: string)
    requires s.query == query && (query == "aa" || query == "bb") && (next == "aa" || next == "bb") && next != query
    ensures var t := Apply(s, Type(next));
      t.inFlight == s.inFlight && t.query == next && t.timer && t.log == s.log && t.suggestions == s.suggestions
    ensures AllFirst(Apply(s, Type(next))) == AllFirst(s)
  {
    TwoLetters(query);
    TwoLetters(next);
  }

  lemma OneSearchMore(s: State, query: string, next: string)
    requires Poised(s, query) && (query == "aa" || query == "bb") && (next == "aa" || next == "bb") && next != query
    ensures var t := Apply(Apply(s, TimerFires), Type(next));
      Poised(t, next) && |AllFirst(t)| == |AllFirst(s)| + GROUP_CONCURRENCY
  {
    TwoLetters(query);
    FiringAdds(s);
    ActionKeepsInv(s, TimerFires);
    ActionKeepsInv(Apply(s, TimerFires), Type(next));
    TypingSendsNothing(Apply(s, TimerFires), query, next);
  }

  /**
   The waves bound one search, not the page: an overtaken search keeps its wave in flight, so for
   every number of searches there is a run with three requests in flight for each of them.
   */
  lemma {:induction false} OvertakenWavesPileUp(searches: nat) returns (run: seq<Action>, query: string)
    ensures query == "aa" || query == "bb"
    ensures Poised(Exec("aa", run), query)
    ensures |AllFirst(Exec("aa", run))| == GROUP_CONCURRENCY * searches
  {
    if searches == 0 {
      run, query := [], "aa";
      StartIsOk("aa");
      TwoLetters("aa");
      assert AllFirst(Start("aa")) == {};
    } else {
      var before, last := OvertakenWavesPileUp(searches - 1);
      query := if last == "aa" then "bb" else "aa";
      OneSearchMore(Exec("aa", before), last, query);
      OneMore("aa", before, TimerFires);
      OneMore("aa", before + [TimerFires], Type(query));
      run := before + [TimerFires] + [Type(query)];
    }
  }

  /** The first search has gone out. */
  lemma FirstSearch()
    ensures var s := Apply(Start("aa"), TimerFires);
      && s.token == 1 && s.query == "aa" && Request(Titles, 1, "", "aa") in s.inFlight
      && forall k :: 0 <= k < |s.log| ==> s.log[k].Sent?
  {
    var start := Start("aa");
    TwoLetters("aa");
    AskWaveStays(Begun(start, CurrentOf(start)));
    OnlySent(Begun(start, CurrentOf(start)));
  }

  /**
   A keystroke clears the groups, the words and the count, but not the suggestions: until the new
   ones come, and whenever they never do, the palette holds those of the words typed before.
   */
  lemma SuggestionsOutliveTheirWords(rows: seq<string>) returns (run: seq<Action>)
    ensures var s := Exec("aa", run);
      && s.query == "bb" && Term(s) == "bb" && s.timer && s.suggestions == Some(rows)
      && forall k :: 0 <= k < |s.log| && s.log[k].Suggested? ==> s.log[k].request.text == "aa"
  {
    var r := Request(Titles, 1, "", "aa");
    var one := Apply(Start("aa"), TimerFires);
    var two := Apply(one, Suggest(r, rows));
    run := [TimerFires, Suggest(r, rows), Type("bb")];
    ThreeSteps("aa", TimerFires, Suggest(r, rows), Type("bb"));
    FirstSearch();
    SuggestionsCome(one, r, rows);
    TypingSendsNothing(two, "aa", "bb");
    TwoLetters("bb");
  }

  lemma OneMore(query: string, run: seq<Action>, a: Action)
    ensures Exec(query, run + [a]) == Apply(Exec(query, run), a)
  {
    assert (run + [a])[..|run|] == run;
  }

  lemma ThreeSteps(query: string, a: Action, b: Action, c: Action)
    ensures Exec(query, [a, b, c]) == Apply(Apply(Apply(Start(query), a), b), c)
  {
    TwoSteps(query, a, b);
    OneMore(query, [a, b], c);
    assert [a, b] + [c] == [a, b, c];
  }

  lemma TwoSteps(query: string, a: Action, b: Action)
    ensures Exec(query, [a, b]) == Apply(Apply(Start(query), a), b)
  {
    OneMore(query, [], a);
    OneMore(query, [a], b);
    assert [] + [a] == [a] && [a] + [b] == [a, b];
  }

  lemma SuggestionsCome(s: State, r: Request, rows: seq<string>)
    requires r in s.inFlight && r.kind == Titles && r.token == s.token
    ensures var t := Apply(s, Suggest(r, rows));
      t.suggestions == Some(rows) && t.query == s.query && t.log == s.log + [Suggested(r, rows)]
  {
  }

  lemma {:induction false} OnlySent(s: State)
    requires s.token in s.loops && s.loops[s.token].asked <= |s.loops[s.token].targets|
    requires forall k :: 0 <= k < |s.log| ==> s.log[k].Sent?
    ensures forall k :: 0 <= k < |AskWave(s).log| ==> AskWave(s).log[k].Sent?
    decreases |s.loops[s.token].targets| - s.loops[s.token].asked
  {
    if s.loops[s.token].asked < WaveEnd(s.loops[s.token].from, |s.loops[s.token].targets|) {
      OnlySent(AskNext(s));
    }
  }
}
