/**
 The suggestions of the palette, which a keystroke does not clear: whose they are in every run, and
 exactly when they are not for the words in the box.
 */
module PaletteSuggestions {
  import opened Options
  import opened PaletteGroups
  import opened PaletteProtocol
  import opened PaletteInvariant

  /** What came for a search's own suggestions: the rows, or none at all when the request failed. */
  function OwnRows(log: seq<Entry>, token: nat): Option<seq<string>> {
    if log == [] then None
    else
      var last := log[|log| - 1];
      if last.request.kind == Titles && last.request.token == token && last.Suggested? then Some(last.rows)
      else if last.request.kind == Titles && last.request.token == token && last.Failed? then Some([])
      else OwnRows(log[..|log| - 1], token)
  }

  /** What stood when the search that is on began: nothing, if the box asked for nothing then. */
  function Stood(query: string, run: seq<Action>): Option<seq<string>> {
    if run == [] then None
    else
      var before, after := Exec(query, run[..|run| - 1]), Exec(query, run);
      if after.token == before.token then Stood(query, run[..|run| - 1])
      else if Hunting(after) then before.suggestions
      else None
  }

  /** Whether any suggestions came or failed, for the search then on, since the box last asked for nothing. */
  predicate CameSinceQuiet(query: string, run: seq<Action>) {
    if run == [] then false
    else
      var before, after := Exec(query, run[..|run| - 1]), Exec(query, run);
      if after.token != before.token then Hunting(after) && CameSinceQuiet(query, run[..|run| - 1])
      else CameSinceQuiet(query, run[..|run| - 1]) || Arrives(before, run[|run| - 1])
  }

  /** This action brings the current search its suggestions, or their failure. */
  predicate Arrives(s: State, a: Action) {
    (a.Suggest? || a.Fail?) && a.request in s.inFlight && a.request.kind == Titles && a.request.token == s.token
  }

  lemma OwnRowsOfAppend(log: seq<Entry>, e: Entry, token: nat)
    ensures OwnRows(log + [e], token) == (
      if e.request.kind == Titles && e.request.token == token && e.Suggested? then Some(e.rows)
      else if e.request.kind == Titles && e.request.token == token && e.Failed? then Some([])
      else OwnRows(log, token))
  {
    assert (log + [e])[..|log|] == log;
  }

  lemma {:induction false} NoRowsYet(log: seq<Entry>, token: nat)
    requires forall k :: 0 <= k < |log| ==> log[k].request.token != token
    ensures OwnRows(log, token) == None
  {
    if log != [] {
      NoRowsYet(log[..|log| - 1], token);
    }
  }

  // ---- what each step does to them

  lemma SendKeepsRows(s: State, r: Request)
    ensures OwnRows(Send(s, r).log, s.token) == OwnRows(s.log, s.token)
  {
    OwnRowsOfAppend(s.log, Sent(r), s.token);
  }

  lemma {:induction false} AskWaveKeepsRows(s: State)
    requires s.token in s.loops && s.loops[s.token].asked <= |s.loops[s.token].targets|
    ensures AskWave(s).suggestions == s.suggestions && AskWave(s).token == s.token
    ensures OwnRows(AskWave(s).log, s.token) == OwnRows(s.log, s.token)
    decreases |s.loops[s.token].targets| - s.loops[s.token].asked
  {
    var l := s.loops[s.token];
    if l.asked < WaveEnd(l.from, |l.targets|) {
      SendKeepsRows(s, Request(First, s.token, l.targets[l.asked], l.text));
      AskWaveKeepsRows(AskNext(s));
    }
  }

  lemma ContinueKeepsRows(s: State, token: nat)
    ensures Continue(s, token).suggestions == s.suggestions && Continue(s, token).token == s.token
    ensures OwnRows(Continue(s, token).log, s.token) == OwnRows(s.log, s.token)
  {
    if token in s.loops && !WaveIsOut(s, token) && token == s.token && s.loops[token].asked <= |s.loops[token].targets| {
      var l := s.loops[s.token];
      if l.asked < |l.targets| {
        AskWaveKeepsRows(s.(loops := s.loops[s.token := l.(from := l.asked)]));
      } else {
        SendKeepsRows(s.(loops := s.loops - {s.token}), Request(Count, s.token, "", l.text));
      }
    }
  }

  /** The suggestions a state shows, given what stood when its search began. */
  ghost predicate Explained(s: State, stood: Option<seq<string>>) {
    s.suggestions == if OwnRows(s.log, s.token).Some? then OwnRows(s.log, s.token) else stood
  }

  lemma ReceiveExplained(s: State, r: Request, e: Entry, stood: Option<seq<string>>)
    requires Explained(s, stood) && e.request == r && !e.Sent? && (r.kind == Titles ==> !e.Came?)
    ensures Explained(Receive(s, r, e), stood) && Receive(s, r, e).token == s.token
  {
    OwnRowsOfAppend(s.log, e, s.token);
    ContinueKeepsRows(Shown(Over(s, r, e), r, e), r.token);
  }

  lemma TimerExplained(s: State, stood: Option<seq<string>>)
    requires Explained(s, stood)
    ensures Explained(Apply(s, TimerFires), stood) && Apply(s, TimerFires).token == s.token
  {
    if s.timer {
      var begun := Begun(s, CurrentOf(s));
      AskWaveKeepsRows(begun);
      SendKeepsRows(AskWave(begun), Request(Titles, s.token, "", Term(s)));
    }
  }

  /** An action that goes on with the search keeps the explanation. */
  lemma StepExplained(s: State, a: Action, stood: Option<seq<string>>)
    requires Explained(s, stood) && Apply(s, a).token == s.token
    ensures Explained(Apply(s, a), stood)
  {
    match a
    case Type(_) =>
    case RetryAll =>
    case RetryGroup(provider) =>
      SendKeepsRows(s.(groups := WithGroup(s.groups, PendingGroup(provider))), Request(Again, s.token, provider, Term(s)));
    case TimerFires => TimerExplained(s, stood);
    case Answer(r, result) =>
      if r in s.inFlight && r.kind != Titles {
        ReceiveExplained(s, r, Came(r, result), stood);
      }
    case Suggest(r, rows) =>
      if r in s.inFlight && r.kind == Titles {
        ReceiveExplained(s, r, Suggested(r, rows), stood);
      }
    case Fail(r, failure) =>
      if r in s.inFlight {
        ReceiveExplained(s, r, Failed(r, failure), stood);
      }
  }

  /** A new search has no suggestions of its own, and leaves what stands unless it asks for nothing. */
  lemma NewSearchExplained(s: State, a: Action)
    requires Inv(s) && Apply(s, a).token != s.token
    ensures Explained(Apply(s, a), if Hunting(Apply(s, a)) then s.suggestions else None)
    ensures OwnRows(Apply(s, a).log, Apply(s, a).token) == None
  {
    TokenStays(s, a);
    NoRowsYet(s.log, s.token + 1);
  }

  /** Only a new search takes a new token. */
  lemma TokenStays(s: State, a: Action)
    ensures Apply(s, a).token != s.token ==> (a.Type? || a.RetryAll?)
  {
    match a
    case TimerFires =>
      if s.timer {
        AskWaveKeepsRows(Begun(s, CurrentOf(s)));
      }
    case Answer(r, result) => ReceiveKeepsQuery(s, r, Came(r, result));
    case Suggest(r, rows) => ReceiveKeepsQuery(s, r, Suggested(r, rows));
    case Fail(r, failure) => ReceiveKeepsQuery(s, r, Failed(r, failure));
    case _ =>
  }

  // ---- the whole run

  /**
   In every run the suggestions are what came for the search that is on, its rows or none when they
   failed; until that comes they are exactly what stood when the search began.
   */
  lemma {:induction false} SuggestionsAreOwnOrStood(query: string, run: seq<Action>)
    ensures Explained(Exec(query, run), Stood(query, run))
  {
    if run == [] {
      NoRowsYet(Start(query).log, Start(query).token);
    } else {
      var before, a := Exec(query, run[..|run| - 1]), run[|run| - 1];
      SuggestionsAreOwnOrStood(query, run[..|run| - 1]);
      if Apply(before, a).token == before.token {
        StepExplained(before, a, Stood(query, run[..|run| - 1]));
      } else {
        EveryRunKeepsInv(query, run[..|run| - 1]);
        NewSearchExplained(before, a);
      }
    }
  }

  /** Own rows are an answer, or a failure, to the words in the box. */
  lemma {:induction false} OwnRowsCame(log: seq<Entry>, token: nat) returns (k: nat)
    requires OwnRows(log, token).Some?
    ensures k < |log| && log[k].request.kind == Titles && log[k].request.token == token
    ensures if log[k].Suggested? then OwnRows(log, token) == Some(log[k].rows)
            else log[k].Failed? && OwnRows(log, token) == Some([])
  {
    var last := log[|log| - 1];
    if last.request.kind == Titles && last.request.token == token && (last.Suggested? || last.Failed?) {
      k := |log| - 1;
    } else {
      k := OwnRowsCame(log[..|log| - 1], token);
    }
  }

  lemma OwnRowsAreForTheBox(query: string, run: seq<Action>) returns (k: nat)
    requires OwnRows(Exec(query, run).log, Exec(query, run).token).Some?
    ensures var s := Exec(query, run);
      && k < |s.log| && s.log[k].request.kind == Titles
      && s.log[k].request.token == s.token && s.log[k].request.text == Term(s)
      && s.suggestions == (if s.log[k].Suggested? then Some(s.log[k].rows) else Some([]))
  {
    var s := Exec(query, run);
    EveryRunKeepsInv(query, run);
    SuggestionsAreOwnOrStood(query, run);
    k := OwnRowsCame(s.log, s.token);
    assert RequestOk(s.log[k].request, s, CurrentOf(s));
  }

  // ---- exactly when they are somebody else's

  /** Suggestions show that no request of the current search has brought. */
  predicate Outlived(s: State) {
    s.suggestions.Some? && OwnRows(s.log, s.token) == None
  }

  lemma ArrivingShows(s: State, a: Action)
    requires Apply(s, a).token == s.token
    ensures Apply(s, a).suggestions.Some? <==> s.suggestions.Some? || Arrives(s, a)
  {
    match a
    case TimerFires =>
      if s.timer {
        AskWaveKeepsRows(Begun(s, CurrentOf(s)));
      }
    case Answer(r, result) => ReceivingShows(s, r, Came(r, result));
    case Suggest(r, rows) => ReceivingShows(s, r, Suggested(r, rows));
    case Fail(r, failure) => ReceivingShows(s, r, Failed(r, failure));
    case _ =>
  }

  lemma ReceivingShows(s: State, r: Request, e: Entry)
    ensures Receive(s, r, e).suggestions.Some? <==>
      s.suggestions.Some? || (r.kind == Titles && r.token == s.token && (e.Suggested? || e.Failed?))
  {
    ContinueKeepsRows(Shown(Over(s, r, e), r, e), r.token);
  }

  lemma {:induction false} SomeShowIffSomeCame(query: string, run: seq<Action>)
    ensures Exec(query, run).suggestions.Some? <==> CameSinceQuiet(query, run)
  {
    if run != [] {
      var before, a := Exec(query, run[..|run| - 1]), run[|run| - 1];
      SomeShowIffSomeCame(query, run[..|run| - 1]);
      if Apply(before, a).token == before.token {
        ArrivingShows(before, a);
      } else {
        EveryRunKeepsInv(query, run[..|run| - 1]);
        NewSearchExplained(before, a);
      }
    }
  }

  /**
   The palette keeps suggestions that the search in the box did not ask for if and only if some came
   since the box last asked for nothing, and those of the current search have neither come nor failed.
   */
  lemma SuggestionsOutliveTheirWordsIff(query: string, run: seq<Action>)
    ensures var s := Exec(query, run);
      Outlived(s) <==> CameSinceQuiet(query, run) && OwnRows(s.log, s.token) == None
  {
    SomeShowIffSomeCame(query, run);
  }
}
