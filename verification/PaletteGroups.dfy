/** The palette's sections: one group per provider, each with its own state. */
module PaletteGroups {
  import opened Options

  const SECTION_ROWS: nat := 5
  const MIN_QUERY: nat := 2
  const PER_GROUP: nat := 6
  const GROUP_CONCURRENCY: nat := 3

  const PROVIDER_ORDER: seq<string> := ["pages", "media", "sites", "logs", "translations", "settings"]

  datatype Hit = Hit(id: string)

  datatype SearchResult = SearchResult(hits: Option<seq<Hit>>, terms: seq<string>, total: Option<nat>)

  datatype Failure = Failure(code: string, status: int, message: string)

  datatype Status = Pending | Ready | Error

  datatype Group = Group(
    provider: string, title: string, status: Status, rows: seq<Hit>, total: nat, truncated: bool,
    error: Option<Failure>)

  /** The panel's own name for a provider, or its key. */
  function ProviderLabel(provider: string): string {
    if provider == "pages" then "Pages"
    else if provider == "media" then "Media"
    else if provider == "sites" then "Sites"
    else if provider == "logs" then "Activity"
    else if provider == "translations" then "Translations"
    else if provider == "settings" then "Settings"
    else provider
  }

  function PendingGroup(provider: string): Group {
    Group(provider, ProviderLabel(provider), Pending, [], 0, false, None)
  }

  function PendingGroups(providers: seq<string>): (groups: seq<Group>)
    ensures |groups| == |providers|
  {
    seq(|providers|, k requires 0 <= k < |providers| => PendingGroup(providers[k]))
  }

  function Hits(answer: SearchResult): seq<Hit> {
    if answer.hits.Some? then answer.hits.value else []
  }

  function Max(a: nat, b: nat): nat {
    if a < b then b else a
  }

  function GroupFromAnswer(provider: string, answer: SearchResult): Group {
    var rows := if |Hits(answer)| > SECTION_ROWS then Hits(answer)[..SECTION_ROWS] else Hits(answer);
    var total := Max(if answer.total.Some? then answer.total.value else 0, |rows|);
    Group(provider, ProviderLabel(provider), Ready, rows, total, total > |rows|, None)
  }

  function GroupFromError(provider: string, failure: Failure): Group {
    Group(provider, ProviderLabel(provider), Error, [], 0, false, Some(failure))
  }

  /** One group replaced, the others as they are. */
  function WithGroup(groups: seq<Group>, next: Group): (r: seq<Group>)
    ensures |r| == |groups|
  {
    seq(|groups|, k requires 0 <= k < |groups| => if groups[k].provider == next.provider then next else groups[k])
  }

  function GroupsTotal(groups: seq<Group>): nat {
    if groups == [] then 0
    else
      var last := groups[|groups| - 1];
      GroupsTotal(groups[..|groups| - 1]) + if last.status == Ready then last.total else 0
  }

  function RowsShown(groups: seq<Group>): nat {
    if groups == [] then 0 else RowsShown(groups[..|groups| - 1]) + |groups[|groups| - 1].rows|
  }

  /** Every group has answered or failed. */
  predicate GroupsSettled(groups: seq<Group>) {
    groups != [] && forall k :: 0 <= k < |groups| ==> groups[k].status != Pending
  }

  // ---- the waves

  /** Where the wave that starts at `from` ends. */
  function WaveEnd(from: nat, n: nat): nat {
    if from + GROUP_CONCURRENCY < n then from + GROUP_CONCURRENCY else n
  }

  function Waves(targets: seq<string>): seq<seq<string>>
    decreases |targets|
  {
    if targets == [] then []
    else [targets[..WaveEnd(0, |targets|)]] + Waves(targets[WaveEnd(0, |targets|)..])
  }

  function Concat(waves: seq<seq<string>>): seq<string> {
    if waves == [] then [] else waves[0] + Concat(waves[1..])
  }

  /** The waves make up the targets in order; none is empty and none is larger than three. */
  lemma {:induction false} WavesConcatenate(targets: seq<string>)
    ensures Concat(Waves(targets)) == targets
    ensures forall k :: 0 <= k < |Waves(targets)| ==> 1 <= |Waves(targets)[k]| <= GROUP_CONCURRENCY
  {
    if targets != [] {
      var end := WaveEnd(0, |targets|);
      WavesConcatenate(targets[end..]);
      assert targets == targets[..end] + targets[end..];
      assert Waves(targets)[1..] == Waves(targets[end..]);
    }
  }

  /** The waves as slices, three positions apart. */
  lemma {:induction false} WaveAt(targets: seq<string>, k: nat)
    ensures GROUP_CONCURRENCY * |Waves(targets)| < |targets| + GROUP_CONCURRENCY <= GROUP_CONCURRENCY * |Waves(targets)| + GROUP_CONCURRENCY
    ensures k < |Waves(targets)| ==>
      GROUP_CONCURRENCY * k < |targets|
      && Waves(targets)[k] == targets[GROUP_CONCURRENCY * k..WaveEnd(GROUP_CONCURRENCY * k, |targets|)]
    decreases |targets|
  {
    if targets != [] {
      var end := WaveEnd(0, |targets|);
      var rest := targets[end..];
      WaveAt(rest, if k == 0 then 0 else k - 1);
      if 0 < k < |Waves(targets)| {
        assert Waves(targets)[k] == Waves(rest)[k - 1];
        var from := GROUP_CONCURRENCY * (k - 1);
        assert end == GROUP_CONCURRENCY;
        assert rest[from..WaveEnd(from, |rest|)] == targets[end + from..WaveEnd(end + from, |targets|)];
      }
    }
  }

  /** Cutting the targets into waves, as the code does it. */
  method CutWaves(targets: seq<string>) returns (waves: seq<seq<string>>)
    ensures waves == Waves(targets) && Concat(waves) == targets
  {
    waves := [];
    var index := 0;
    assert targets[0..] == targets;
    while index < |targets|
      invariant index <= |targets| + GROUP_CONCURRENCY
      invariant waves + Waves(if index < |targets| then targets[index..] else []) == Waves(targets)
    {
      var rest := targets[index..];
      var end := WaveEnd(index, |targets|);
      assert rest[..WaveEnd(0, |rest|)] == targets[index..end];
      assert rest[WaveEnd(0, |rest|)..] == targets[end..];
      waves := waves + [targets[index..end]];
      index := index + GROUP_CONCURRENCY;
    }
    WavesConcatenate(targets);
  }

  // ---- what a group shows

  /** An answer's group: the first five hits, the larger of its total and what is shown. */
  lemma AnswersAreShown(provider: string, answer: SearchResult)
    ensures var g := GroupFromAnswer(provider, answer);
      && g.rows <= Hits(answer)
      && |g.rows| == (if |Hits(answer)| < SECTION_ROWS then |Hits(answer)| else SECTION_ROWS)
      && (g.truncated <==> answer.total.Some? && answer.total.value > |g.rows|)
      && |g.rows| <= g.total
  {
  }

  /**
   Six hits are asked for so that a sixth one tells whether there is more. The verdict does not look
   at it: with a total that is missing or no larger than five, a sixth hit is neither shown nor counted.
   */
  lemma TheSixthHitSaysNothing(provider: string, answer: SearchResult)
    requires |Hits(answer)| == PER_GROUP
    ensures GroupFromAnswer(provider, answer).truncated
      <==> answer.total.Some? && answer.total.value >= PER_GROUP
  {
  }
}
