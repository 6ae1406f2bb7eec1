/**
 The palette component: its state, and the callbacks that replace it piece by piece. Each callback is
 one action of the protocol, so everything proved of all runs holds of the component at every moment
 between two of them.
 */
module SearchPalette {
  import opened Options
  import opened CommandCenter
  import opened PaletteGroups
  import opened PaletteProtocol

  class Palette {
    var query: string
    var tokenRef: nat
    var groups: seq<Group>
    var terms: seq<string>
    var answer: Option<SearchResult>
    var suggestions: Option<seq<string>>
    var timer: bool
    var loops: map<nat, Loop>
    var inFlight: set<Request>
    /** What went over the network, for the proofs alone. */
    ghost var log: seq<Entry>
    ghost const initial: string
    ghost var run: seq<Action>

    ghost function View(): State
      reads this
    {
      State(query, tokenRef, groups, terms, answer, suggestions, timer, loops, inFlight, log)
    }

    /** The component is in a state that a run of the protocol reaches. */
    ghost predicate Valid()
      reads this
    {
      View() == Exec(initial, run)
    }

    ghost predicate Follows(before: State, past: seq<Action>, a: Action)
      reads this
    {
      run == past + [a] && View() == Apply(before, a)
    }

    constructor (initialQuery: string)
      ensures Valid() && run == [] && initial == initialQuery
    {
      initial := initialQuery;
      run := [];
      query := initialQuery;
      tokenRef, groups, terms, answer, suggestions := 0, [], [], None, None;
      timer, loops, inFlight, log := false, map[], {}, [];
      new;
      SearchEffect();
    }

    /** The search effect. The timer of the effect before it is cleared. */
    method SearchEffect()
      modifies this
      ensures View() == Effect(old(View())) && run == old(run)
    {
      timer := false;
      var reading := ReadMode(query);
      if !IsHunting(reading) {
        tokenRef := tokenRef + 1;
        groups := [];
        answer := None;
        terms := [];
        suggestions := None;
        return;
      }
      var token := tokenRef + 1;
      tokenRef := token;
      groups := PendingGroups(Targets(reading.mode));
      answer := None;
      terms := [];
      timer := true;
    }

    /** A keystroke: the effect runs when what it depends on has changed. */
    method Type(text: string)
      requires Valid()
      modifies this
      ensures Valid() && Follows(old(View()), old(run), Action.Type(text))
    {
      ghost var before := View();
      var reading, next := ReadMode(query), ReadMode(text);
      query := text;
      if reading.term != next.term || reading.mode != next.mode {
        SearchEffect();
      }
      Record(before, Action.Type(text));
    }

    /** The retry of the whole search. */
    method RetryAll()
      requires Valid()
      modifies this
      ensures Valid() && Follows(old(View()), old(run), Action.RetryAll)
    {
      ghost var before := View();
      SearchEffect();
      Record(before, Action.RetryAll);
    }

    /** One request goes out. */
    method Ask(r: Request)
      modifies this`inFlight, this`log
      ensures View() == Send(old(View()), r) && run == old(run)
    {
      inFlight := inFlight + {r};
      log := log + [Sent(r)];
    }

    /** The retry of one group, offered where it failed. */
    method RetryGroup(provider: string)
      requires Valid()
      modifies this
      ensures Valid() && Follows(old(View()), old(run), Action.RetryGroup(provider))
    {
      ghost var before := View();
      if exists k :: 0 <= k < |groups| && groups[k].provider == provider && groups[k].status == Error {
        var token := tokenRef;
        groups := WithGroup(groups, PendingGroup(provider));
        Ask(Request(Again, token, provider, ReadMode(query).term));
      }
      Record(before, Action.RetryGroup(provider));
    }

    /** The pause is over: the first wave goes out, and the suggestions are asked for. */
    method TimerFires()
      requires Valid()
      modifies this
      ensures Valid() && Follows(old(View()), old(run), Action.TimerFires)
    {
      ghost var before := View();
      if timer {
        var text, targets := ReadMode(query).term, Targets(ReadMode(query).mode);
        timer := false;
        loops := loops[tokenRef := Loop(text, targets, 0, 0)];
        AskRest();
        Ask(Request(Titles, tokenRef, "", text));
      }
      Record(before, Action.TimerFires);
    }

    /** The rest of the current wave, provider by provider. */
    method AskRest()
      requires tokenRef in loops && loops[tokenRef].asked <= |loops[tokenRef].targets|
      modifies this`loops, this`inFlight, this`log
      ensures View() == AskWave(old(View())) && run == old(run)
    {
      var token := tokenRef;
      var end := WaveEnd(loops[token].from, |loops[token].targets|);
      while loops[token].asked < end
        invariant token == tokenRef && token in loops && loops[token].asked <= |loops[token].targets|
        invariant end == WaveEnd(loops[token].from, |loops[token].targets|)
        invariant AskWave(View()) == AskWave(old(View()))
        decreases end - loops[token].asked
      {
        ghost var before := View();
        var l := loops[token];
        Ask(Request(First, token, l.targets[l.asked], l.text));
        loops := loops[token := l.(asked := l.asked + 1)];
        assert View() == AskNext(before);
      }
    }

    /** What the code behind a wave does once the whole wave is in. */
    method GoOn(token: nat)
      modifies this`loops, this`inFlight, this`log
      ensures View() == Continue(old(View()), token) && run == old(run)
    {
      if token !in loops || exists r :: r in inFlight && r.kind == First && r.token == token {
        return;
      }
      if tokenRef != token {
        loops := loops - {token};
        return;
      }
      var l := loops[token];
      if l.asked > |l.targets| {
        return;
      }
      if l.asked < |l.targets| {
        loops := loops[token := l.(from := l.asked)];
        AskRest();
      } else {
        loops := loops - {token};
        if |l.targets| > 1 {
          Ask(Request(Count, token, "", l.text));
        }
      }
    }

    method Settle(r: Request, e: Entry)
      modifies this`inFlight, this`log
      ensures View() == Over(old(View()), r, e) && run == old(run)
    {
      inFlight := inFlight - {r};
      log := log + [e];
    }

    /** An answer, to one provider's question or to the count of the whole index. */
    method OnAnswer(r: Request, result: SearchResult)
      requires Valid() && r in inFlight && r.kind != Titles
      modifies this
      ensures Valid() && Follows(old(View()), old(run), Action.Answer(r, result))
    {
      ghost var before := View();
      Settle(r, Came(r, result));
      if tokenRef == r.token {
        if r.kind == Count {
          answer := Some(result);
        } else {
          groups := WithGroup(groups, GroupFromAnswer(r.provider, result));
        }
        terms := if |terms| > 0 then terms else result.terms;
      }
      assert View() == Shown(Over(before, r, Came(r, result)), r, Came(r, result));
      if r.kind == First {
        GoOn(r.token);
      }
      Record(before, Action.Answer(r, result));
    }

    /** A request that failed: of one provider, it fails that group alone. */
    method OnFailure(r: Request, failure: Failure)
      requires Valid() && r in inFlight
      modifies this
      ensures Valid() && Follows(old(View()), old(run), Action.Fail(r, failure))
    {
      ghost var before := View();
      Settle(r, Failed(r, failure));
      if tokenRef == r.token {
        if r.kind == First || r.kind == Again {
          groups := WithGroup(groups, GroupFromError(r.provider, failure));
        } else if r.kind == Titles {
          suggestions := Some([]);
        }
      }
      assert View() == Shown(Over(before, r, Failed(r, failure)), r, Failed(r, failure));
      if r.kind == First {
        GoOn(r.token);
      }
      Record(before, Action.Fail(r, failure));
    }

    method OnSuggestions(r: Request, rows: seq<string>)
      requires Valid() && r in inFlight && r.kind == Titles
      modifies this
      ensures Valid() && Follows(old(View()), old(run), Action.Suggest(r, rows))
    {
      ghost var before := View();
      Settle(r, Suggested(r, rows));
      if tokenRef == r.token {
        suggestions := Some(rows);
      }
      Record(before, Action.Suggest(r, rows));
    }

    ghost method Record(before: State, a: Action)
      requires before == Exec(initial, run) && View() == Apply(before, a)
      modifies this`run
      ensures Valid() && run == old(run) + [a]
    {
      assert (run + [a])[..|run|] == run;
      run := run + [a];
    }
  }
}
