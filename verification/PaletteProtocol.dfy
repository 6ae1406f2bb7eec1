/**
 The palette's requests: keystrokes move a token, providers are asked in waves of three behind a
 short pause, and answers arrive late, in any order, or never.

 A keystroke and the effect that follows it are one action, and so are the callback of a request and
 the code that waited for it: nothing else of the page can run between them.
 */
module PaletteProtocol {
  import opened Options
  import opened CommandCenter
  import opened PaletteGroups

  datatype Kind = First | Again | Count | Titles

  /** A request; one to the whole index (`Count`, `Titles`) names no provider. */
  datatype Request = Request(kind: Kind, token: nat, provider: string, text: string)

  /** What went over the network. */
  datatype Entry =
    | Sent(request: Request)
    | Came(request: Request, result: SearchResult)
    | Failed(request: Request, failure: Failure)
    | Suggested(request: Request, rows: seq<string>)

  /** The loop over the waves of one search: the wave from `from` is asked up to `asked`. */
  datatype Loop = Loop(text: string, targets: seq<string>, from: nat, asked: nat)

  datatype State = State(
    query: string,
    token: nat,
    groups: seq<Group>,
    terms: seq<string>,
    answer: Option<SearchResult>,
    suggestions: Option<seq<string>>,
    timer: bool,
    loops: map<nat, Loop>,
    inFlight: set<Request>,
    log: seq<Entry>)

  datatype Action =
    | Type(query: string)
    | RetryAll
    | RetryGroup(provider: string)
    | TimerFires
    | Answer(request: Request, result: SearchResult)
    | Suggest(request: Request, rows: seq<string>)
    | Fail(request: Request, failure: Failure)

  // ---- what the box asks for

  function Targets(mode: Mode): seq<string> {
    if !ModeSearches(mode) || mode == Commands then []
    else if ModeTypes(mode).Some? then [ModeTypes(mode).value]
    else PROVIDER_ORDER
  }

  predicate IsHunting(reading: Reading) {
    ModeSearches(reading.mode) && reading.mode != Commands
    && |reading.term| >= if reading.mode == All then MIN_QUERY else 1
  }

  function Term(s: State): string {
    ReadMode(s.query).term
  }

  predicate Hunting(s: State) {
    IsHunting(ReadMode(s.query))
  }

  function TargetsOf(s: State): seq<string> {
    Targets(ReadMode(s.query).mode)
  }

  // ---- the steps

  /** The search effect: every run of it takes the next token and starts from nothing. */
  function Effect(s: State): State {
    var begun := s.(token := s.token + 1, answer := None, terms := []);
    if Hunting(s) then begun.(groups := PendingGroups(TargetsOf(s)), timer := true)
    else begun.(groups := [], suggestions := None, timer := false)
  }

  function Send(s: State, r: Request): State {
    s.(inFlight := s.inFlight + {r}, log := s.log + [Sent(r)])
  }

  /** Asking the next provider of the current search's wave. */
  function AskNext(s: State): State
    requires s.token in s.loops && s.loops[s.token].asked < |s.loops[s.token].targets|
  {
    var l := s.loops[s.token];
    Send(s, Request(First, s.token, l.targets[l.asked], l.text)).(loops := s.loops[s.token := l.(asked := l.asked + 1)])
  }

  /** Asking the rest of the wave. */
  function AskWave(s: State): State
    requires s.token in s.loops && s.loops[s.token].asked <= |s.loops[s.token].targets|
    decreases if s.token in s.loops then |s.loops[s.token].targets| - s.loops[s.token].asked else 0
  {
    var l := s.loops[s.token];
    if l.asked >= WaveEnd(l.from, |l.targets|) then s else AskWave(AskNext(s))
  }

  /** The next wave of the current search, or behind the last one the count of the whole index. */
  function NextWave(s: State): State
    requires s.token in s.loops && s.loops[s.token].asked <= |s.loops[s.token].targets|
  {
    var l := s.loops[s.token];
    if l.asked < |l.targets| then AskWave(s.(loops := s.loops[s.token := l.(from := l.asked)]))
    else
      var done := s.(loops := s.loops - {s.token});
      if |l.targets| > 1 then Send(done, Request(Count, s.token, "", l.text)) else done
  }

  predicate WaveIsOut(s: State, token: nat) {
    exists r :: r in s.inFlight && r.kind == First && r.token == token
  }

  /** The loop that waited for a wave goes on, unless the wave is still out or the search is overtaken. */
  function Continue(s: State, token: nat): State {
    if token !in s.loops || WaveIsOut(s, token) then s
    else if token != s.token then s.(loops := s.loops - {token})
    else if s.loops[token].asked > |s.loops[token].targets| then s
    else NextWave(s)
  }

  /** A request is over. */
  function Over(s: State, r: Request, e: Entry): State {
    s.(inFlight := s.inFlight - {r}, log := s.log + [e])
  }

  function FirstNotEmpty(terms: seq<string>, more: seq<string>): seq<string> {
    if terms != [] then terms else more
  }

  /** What an answer or a failure does to the screen: nothing when its token is not the current one. */
  function Shown(s: State, r: Request, e: Entry): State {
    if r.token != s.token then s
    else if r.kind == First || r.kind == Again then (
      match e
      case Came(_, result) =>
        s.(groups := WithGroup(s.groups, GroupFromAnswer(r.provider, result)), terms := FirstNotEmpty(s.terms, result.terms))
      case Failed(_, failure) => s.(groups := WithGroup(s.groups, GroupFromError(r.provider, failure)))
      case _ => s)
    else if r.kind == Count && e.Came? then s.(answer := Some(e.result), terms := FirstNotEmpty(s.terms, e.result.terms))
    else if r.kind == Titles && e.Suggested? then s.(suggestions := Some(e.rows))
    else if r.kind == Titles && e.Failed? then s.(suggestions := Some([]))
    else s
  }

  function Receive(s: State, r: Request, e: Entry): State {
    var shown := Shown(Over(s, r, e), r, e);
    if r.kind == First then Continue(shown, r.token) else shown
  }

  predicate OffersRetry(s: State, provider: string) {
    exists k :: 0 <= k < |s.groups| && s.groups[k].provider == provider && s.groups[k].status == Error
  }

  function Apply(s: State, a: Action): State {
    match a
    case Type(query) =>
      var typed := s.(query := query);
      if ReadMode(query).term == Term(s) && ReadMode(query).mode == ReadMode(s.query).mode then typed else Effect(typed)
    case RetryAll => Effect(s)
    case RetryGroup(provider) =>
      if !OffersRetry(s, provider) then s
      else Send(s.(groups := WithGroup(s.groups, PendingGroup(provider))), Request(Again, s.token, provider, Term(s)))
    case TimerFires =>
      if !s.timer then s
      else
        var asked := AskWave(s.(timer := false, loops := s.loops[s.token := Loop(Term(s), TargetsOf(s), 0, 0)]));
        Send(asked, Request(Titles, s.token, "", Term(s)))
    case Answer(r, result) => if r in s.inFlight && r.kind != Titles then Receive(s, r, Came(r, result)) else s
    case Suggest(r, rows) => if r in s.inFlight && r.kind == Titles then Receive(s, r, Suggested(r, rows)) else s
    case Fail(r, failure) => if r in s.inFlight then Receive(s, r, Failed(r, failure)) else s
  }

  function Start(query: string): State {
    Effect(State(query, 0, [], [], None, None, false, map[], {}, []))
  }

  function Exec(query: string, run: seq<Action>): State {
    if run == [] then Start(query) else Apply(Exec(query, run[..|run| - 1]), run[|run| - 1])
  }
}
