/** What a reader of the palette may rely on, in every run. */
module PaletteTheorems {
  import opened Options
  import opened CommandCenter
  import opened PaletteGroups
  import opened PaletteProtocol
  import opened PaletteInvariant
  import Lists

  /** The group shows what this answer said, and the answer is to the words in the box, from this provider. */
  ghost predicate IsAnswered(s: State, g: Group, e: Entry) {
    && e.Came? && IsGroupRequest(e.request)
    && e.request.token == s.token && e.request.text == Term(s) && e.request.provider == g.provider
    && g == GroupFromAnswer(g.provider, e.result)
  }

  /**
   However late and in whatever order answers arrive: the groups are the target providers in their
   fixed order, and every group that shows rows shows the first hits of an answer to the words in
   the box, from that group's own provider.
   */
  lemma ReadyGroupsAnswerTheBox(query: string, run: seq<Action>)
    ensures var s := Exec(query, run);
      && |s.groups| == (if Hunting(s) then |TargetsOf(s)| else 0)
      && (forall k :: 0 <= k < |s.groups| ==> s.groups[k].provider == TargetsOf(s)[k])
      && (forall k :: 0 <= k < |s.groups| && s.groups[k].status == Ready ==> AnswersTheBox(s, s.groups[k]))
  {
    var s := Exec(query, run);
    EveryRunKeepsInv(query, run);
    GroupsAnswer(s, CurrentOf(s));
  }

  ghost predicate AnswersTheBox(s: State, g: Group) {
    exists e :: e in s.log && IsAnswered(s, g, e)
  }

  lemma GroupsAnswer(s: State, c: Current)
    requires ScreenOk(s, c) && TokensOk(s, c) && c.term == Term(s)
    ensures |s.groups| == if c.hunting then |c.targets| else 0
    ensures forall k :: 0 <= k < |s.groups| ==> s.groups[k].provider == c.targets[k]
    ensures forall k :: 0 <= k < |s.groups| && s.groups[k].status == Ready ==> AnswersTheBox(s, s.groups[k])
  {
    forall k | 0 <= k < |s.groups| && s.groups[k].status == Ready
      ensures AnswersTheBox(s, s.groups[k])
    {
      var e := AnswerOfReady(s, c, k);
    }
  }

  lemma AnswerOfReady(s: State, c: Current, k: nat) returns (e: Entry)
    requires ScreenOk(s, c) && TokensOk(s, c) && c.term == Term(s)
    requires k < |s.groups| && s.groups[k].status == Ready
    ensures e in s.log && IsAnswered(s, s.groups[k], e)
  {
    LastAboutIsInLog(s.log, s.token, c.targets[k]);
    e := LastAbout(s.log, s.token, c.targets[k]).value;
    assert e.Came?;
    var i :| 0 <= i < |s.log| && s.log[i] == e;
    assert RequestOk(s.log[i].request, s, c);
  }

  /** The history decides the screen: every group is what the last word from its provider says. */
  lemma ScreenIsTheHistory(query: string, run: seq<Action>, k: nat)
    requires Hunting(Exec(query, run)) && k < |TargetsOf(Exec(query, run))|
    ensures var s, provider := Exec(query, run), TargetsOf(Exec(query, run))[k];
      k < |s.groups| && s.groups[k] == GroupNow(LastAbout(s.log, s.token, provider), provider)
  {
    EveryRunKeepsInv(query, run);
  }

  predicate IsOut(s: State, provider: string) {
    exists r :: r in s.inFlight && IsGroupRequest(r) && r.token == s.token && r.provider == provider
  }

  /**
   A group is a skeleton exactly while its own request of this search is in flight or its wave is
   still to come; so a retry leaves every other group alone, and a group that has answered or
   failed never waits for anything.
   */
  lemma PendingMeansAskedOrToCome(query: string, run: seq<Action>, k: nat)
    requires Hunting(Exec(query, run)) && k < |TargetsOf(Exec(query, run))|
    ensures var s := Exec(query, run);
      k < |s.groups| && (s.groups[k].status == Pending <==>
        IsOut(s, TargetsOf(s)[k]) || k >= Asked(s, CurrentOf(s)))
  {
    var s := Exec(query, run);
    var provider := TargetsOf(s)[k];
    EveryRunKeepsInv(query, run);
    var last := LastAbout(s.log, s.token, provider);
    LastAboutIsInLog(s.log, s.token, provider);
    assert s.groups[k] == GroupNow(last, provider);
    if IsOut(s, provider) {
      var r :| r in s.inFlight && IsGroupRequest(r) && r.token == s.token && r.provider == provider;
      assert last == Some(Sent(r));
    }
    if last.Some? && last.value.Sent? {
      var r := last.value.request;
      assert IsGroupRequest(r) && LastAbout(s.log, r.token, r.provider) == Some(Sent(r));
      assert r in s.inFlight;
    }
  }

  /** A search never hangs by itself: a skeleton means the pause is running or a request is in flight. */
  lemma SkeletonsWaitForTheNetwork(query: string, run: seq<Action>)
    ensures var s := Exec(query, run);
      (exists g :: g in s.groups && g.status == Pending) ==>
        s.timer || exists r :: r in s.inFlight && IsGroupRequest(r) && r.token == s.token
  {
    var s := Exec(query, run);
    EveryRunKeepsInv(query, run);
    if g :| g in s.groups && g.status == Pending {
      var k :| 0 <= k < |s.groups| && s.groups[k] == g;
      PendingMeansAskedOrToCome(query, run, k);
      if !s.timer && s.token in s.loops {
        assert WaveIsOut(s, s.token);
      }
    }
  }

  // ---- three at a time

  /** The first-pass requests of the current search that are in flight. */
  function FirstPass(s: State): set<Request> {
    set r | r in s.inFlight && r.kind == First && r.token == s.token
  }

  /** A request for the words in the box, to one of the three providers from `from` on. */
  predicate IsOfWave(r: Request, from: nat, s: State) {
    r.text == Term(s)
    && exists i :: from <= i < from + GROUP_CONCURRENCY && i < |TargetsOf(s)| && TargetsOf(s)[i] == r.provider
  }

  /**
   At most three first-pass requests of the current search are in flight, and they are of one wave:
   neighbours in the fixed order, all of those before them over.
   */
  lemma AtMostThreeAreOut(query: string, run: seq<Action>)
    ensures var s := Exec(query, run);
      && |FirstPass(s)| <= GROUP_CONCURRENCY
      && (FirstPass(s) != {} ==> s.token in s.loops)
      && (forall r :: r in FirstPass(s) ==> IsOfWave(r, s.loops[s.token].from, s))
  {
    var s := Exec(query, run);
    EveryRunKeepsInv(query, run);
    if s.token in s.loops {
      var l := s.loops[s.token];
      var wave := set i | l.from <= i < l.asked :: Request(First, s.token, l.targets[i], l.text);
      forall r | r in FirstPass(s)
        ensures r in wave
      {
        assert InWave(r, s.loops);
      }
      WaveIsSmall(l, s.token, l.asked);
      Lists.SubsetIsSmaller(FirstPass(s), wave);
    } else {
      assert forall r :: r in s.inFlight && r.kind == First ==> InWave(r, s.loops);
      assert FirstPass(s) == {};
    }
  }

  lemma {:induction false} WaveIsSmall(l: Loop, token: nat, upTo: nat)
    requires l.from <= upTo <= l.asked <= |l.targets|
    ensures |set i | l.from <= i < upTo :: Request(First, token, l.targets[i], l.text)| <= upTo - l.from
  {
    var wave := set i | l.from <= i < upTo :: Request(First, token, l.targets[i], l.text);
    if upTo == l.from {
      assert wave == {};
    } else {
      WaveIsSmall(l, token, upTo - 1);
      var before := set i | l.from <= i < upTo - 1 :: Request(First, token, l.targets[i], l.text);
      assert wave == before + {Request(First, token, l.targets[upTo - 1], l.text)};
    }
  }

  // ---- answers of an overtaken search

  /** An answer to an earlier keystroke changes nothing a reader sees. */
  lemma OvertakenAnswersAreDropped(s: State, r: Request, e: Entry)
    requires r.token != s.token
    ensures var t := Receive(s, r, e);
      && t.groups == s.groups && t.terms == s.terms && t.answer == s.answer && t.suggestions == s.suggestions
      && t.token == s.token && t.query == s.query && t.timer == s.timer
      && (s.token in s.loops ==> s.token in t.loops && t.loops[s.token] == s.loops[s.token])
  {
  }

  // ---- the network's order does not show

  /** What the server would answer a provider's question, at any time. */
  datatype Reply = Result(result: SearchResult) | Refusal(failure: Failure)

  /** Every answer that came is the server's answer to that question. */
  ghost predicate Agrees(log: seq<Entry>, server: (string, string) -> Reply) {
    forall k :: 0 <= k < |log| && IsGroupRequest(log[k].request) ==>
      && (log[k].Came? ==> server(log[k].request.provider, log[k].request.text) == Result(log[k].result))
      && (log[k].Failed? ==> server(log[k].request.provider, log[k].request.text) == Refusal(log[k].failure))
  }

  function GroupOf(provider: string, reply: Reply): Group {
    match reply
    case Result(result) => GroupFromAnswer(provider, result)
    case Refusal(failure) => GroupFromError(provider, failure)
  }

  /**
   When no group is a skeleton any more, the screen is what the server says about the words in the
   box, provider by provider, in the fixed order: however the answers were delayed or reordered,
   and whatever was typed before.
   */
  lemma SettledScreenIsTheServers(query: string, run: seq<Action>, server: (string, string) -> Reply)
    requires Agrees(Exec(query, run).log, server) && GroupsSettled(Exec(query, run).groups)
    ensures var s := Exec(query, run);
      && |s.groups| == |TargetsOf(s)|
      && forall k :: 0 <= k < |s.groups| ==> s.groups[k] == GroupOf(TargetsOf(s)[k], server(TargetsOf(s)[k], Term(s)))
  {
    var s := Exec(query, run);
    EveryRunKeepsInv(query, run);
    forall k | 0 <= k < |s.groups|
      ensures s.groups[k] == GroupOf(TargetsOf(s)[k], server(TargetsOf(s)[k], Term(s)))
    {
      LastAboutIsInLog(s.log, s.token, TargetsOf(s)[k]);
      assert s.groups[k] == GroupNow(LastAbout(s.log, s.token, TargetsOf(s)[k]), TargetsOf(s)[k]);
    }
  }

  // ---- the total

  /** A group counts at least what it shows, and shows nothing unless it is ready. */
  predicate CountsItsRows(g: Group) {
    |g.rows| <= if g.status == Ready then g.total else 0
  }

  lemma {:induction false} TotalsCover(groups: seq<Group>)
    requires forall k :: 0 <= k < |groups| ==> CountsItsRows(groups[k])
    ensures RowsShown(groups) <= GroupsTotal(groups)
  {
    if groups != [] {
      assert CountsItsRows(groups[|groups| - 1]);
      TotalsCover(groups[..|groups| - 1]);
    }
  }

  /** The fallback count of "see all" is never less than the rows on the screen. */
  lemma TheTotalCoversTheScreen(query: string, run: seq<Action>)
    ensures RowsShown(Exec(query, run).groups) <= GroupsTotal(Exec(query, run).groups)
  {
    var s := Exec(query, run);
    EveryRunKeepsInv(query, run);
    GroupsCount(s, CurrentOf(s));
    TotalsCover(s.groups);
  }

  lemma GroupsCount(s: State, c: Current)
    requires ScreenOk(s, c)
    ensures forall k :: 0 <= k < |s.groups| ==> CountsItsRows(s.groups[k])
  {
    forall k | 0 <= k < |s.groups|
      ensures CountsItsRows(s.groups[k])
    {
      var last := LastAbout(s.log, s.token, c.targets[k]);
      assert s.groups[k] == GroupNow(last, c.targets[k]);
      if last.Some? && last.value.Came? {
        AnswersAreShown(c.targets[k], last.value.result);
      }
    }
  }
}
