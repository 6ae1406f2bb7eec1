/**
 The command centre: reading the box as a mode and a term, ranking commands, the stored history as
 rows, and commands in groups.

 `lower` is lower-casing, one character at a time.
 */
module CommandCenter {
  import opened Options
  import opened Text
  import opened Lists

  // ---- reading the box

  datatype Mode = All | Commands | People | Sites | Settings | Help

  datatype Reading = Reading(mode: Mode, term: string, prefix: string)

  function PrefixMode(c: char): Option<Mode> {
    if c == '>' then Some(Commands)
    else if c == '@' then Some(People)
    else if c == '#' then Some(Sites)
    else if c == ':' then Some(Settings)
    else if c == '?' then Some(Help)
    else None
  }

  function ReadMode(input: string): Reading {
    ReadLeading(TrimStart(input))
  }

  /** The rest of the reading, behind the white space in front. */
  function ReadLeading(leading: string): Reading {
    if leading == "?" then Reading(Help, "", "?")
    else if leading != "" && PrefixMode(leading[0]) != None then
      Reading(PrefixMode(leading[0]).value, Trim(leading[1..]), leading[..1])
    else Reading(All, TrimEnd(leading), "")
  }

  lemma ReadPrefixed(leading: string)
    requires leading != "" && PrefixMode(leading[0]) != None
    ensures ReadLeading(leading) == Reading(PrefixMode(leading[0]).value, Trim(leading[1..]), [leading[0]])
  {
    assert leading[..1] == [leading[0]];
    if leading == "?" {
      assert leading[1..] == "";
    }
  }

  lemma ReadPlain(leading: string)
    requires leading == "" || PrefixMode(leading[0]) == None
    ensures ReadLeading(leading) == Reading(All, TrimEnd(leading), "")
  {
  }

  lemma TrimStartStops(s: string)
    ensures s != "" && !IsSpace(s[0]) ==> TrimStart(s) == s
  {
  }

  lemma TrimEndStops(s: string)
    ensures TrimEnd(TrimEnd(s)) == TrimEnd(s)
    ensures s != "" && !IsSpace(s[0]) ==> TrimEnd(s) != "" && TrimEnd(s)[0] == s[0]
  {
  }

  lemma PrefixIsNoSpace(c: char)
    requires PrefixMode(c) != None
    ensures !IsSpace(c)
  {
  }

  lemma PrefixedAgain(c: char, term: string, trimmed: string)
    requires PrefixMode(c) != None && trimmed == Trim(term)
    ensures ReadMode([c] + trimmed) == Reading(PrefixMode(c).value, trimmed, [c])
  {
    var box := [c] + trimmed;
    assert TrimStart(box) == box by {
      PrefixIsNoSpace(c);
      TrimStartStops(box);
    }
    assert Trim(trimmed) == trimmed by {
      TrimIsIdempotent(term);
    }
    assert box[1..] == trimmed;
    ReadPrefixed(box);
  }

  lemma PlainAgain(term: string)
    requires term == "" || (PrefixMode(term[0]) == None && !IsSpace(term[0]))
    requires TrimEnd(term) == term
    ensures ReadMode(term) == Reading(All, term, "")
  {
    TrimStartStops(term);
    ReadPlain(term);
  }

  /** Writing a reading back into the box, and reading it again, changes nothing. */
  lemma ReadingIsStable(input: string)
    ensures ReadMode(ReadMode(input).prefix + ReadMode(input).term) == ReadMode(input)
  {
    var leading := TrimStart(input);
    if leading != "" && PrefixMode(leading[0]) != None {
      ReadPrefixed(leading);
      PrefixedAgain(leading[0], leading[1..], Trim(leading[1..]));
    } else {
      ReadPlain(leading);
      TrimEndStops(leading);
      PlainAgain(TrimEnd(leading));
      assert "" + TrimEnd(leading) == TrimEnd(leading);
    }
  }

  /** Asked as a question: it starts with a question mark and has something behind it. */
  predicate IsQuestion(input: string) {
    |TrimStart(input)| > 1 && TrimStart(input)[0] == '?'
  }

  /**
   The shortcut sheet is meant for a question mark that stands alone. It opens for every input that
   starts with one, so the code keeps that promise exactly for the inputs that are not questions.
   */
  lemma QuestionsAreNeverSearched(input: string)
    ensures (ReadMode(input).mode == Help <==> TrimStart(input) == "?") <==> !IsQuestion(input)
    ensures IsQuestion(input) ==> !ModeSearches(ReadMode(input).mode)
  {
    HelpForQuestions(TrimStart(input));
  }

  lemma HelpForQuestions(leading: string)
    ensures ReadLeading(leading).mode == Help <==> leading != "" && leading[0] == '?'
    ensures leading == "?" <==> |leading| == 1 && leading[0] == '?'
  {
  }

  /** The provider a narrowed mode names. */
  function ModeTypes(mode: Mode): Option<string> {
    match mode
    case People => Some("users")
    case Sites => Some("sites")
    case Settings => Some("settings")
    case _ => None
  }

  predicate ModeSearches(mode: Mode) {
    mode != Help
  }

  // ---- ranking

  datatype Command = Command(
    id: string, title: string, hint: string, group: string,
    aliases: seq<string>, keywords: seq<string>)

  function Lower(s: string, lower: char -> char): (r: string)
    ensures |r| == |s| && forall k :: 0 <= k < |s| ==> r[k] == lower(s[k])
  {
    seq(|s|, k requires 0 <= k < |s| => lower(s[k]))
  }

  function LowerAll(texts: seq<string>, lower: char -> char): (r: seq<string>)
    ensures |r| == |texts|
  {
    seq(|texts|, k requires 0 <= k < |texts| => Lower(texts[k], lower))
  }

  predicate Contains(text: string, word: string) {
    exists i :: 0 <= i <= |text| && StartsWith(text[i..], word)
  }

  predicate AnyContains(texts: seq<string>, word: string) {
    exists k :: 0 <= k < |texts| && Contains(texts[k], word)
  }

  function Join(texts: seq<string>): string
    requires texts != []
  {
    if |texts| == 1 then texts[0] else texts[0] + " " + Join(texts[1..])
  }

  predicate NoSpace(s: string) {
    forall k :: 0 <= k < |s| ==> !IsSpace(s[k])
  }

  function WordLength(s: string): (n: nat)
    ensures n <= |s| && NoSpace(s[..n]) && (n < |s| ==> IsSpace(s[n]))
  {
    if s == "" || IsSpace(s[0]) then 0
    else
      var n := WordLength(s[1..]);
      assert s[..n + 1] == [s[0]] + s[1..][..n];
      n + 1
  }

  /** The words of a text: split at white space, the empty pieces dropped. */
  function Words(s: string): seq<string> {
    if s == "" then []
    else if IsSpace(s[0]) then Words(s[1..])
    else [s[..WordLength(s)]] + Words(s[WordLength(s)..])
  }

  function Needle(term: string, lower: char -> char): string {
    Lower(Trim(term), lower)
  }

  function Aliases(command: Command, lower: char -> char): seq<string> {
    LowerAll(command.aliases + command.keywords, lower)
  }

  /** Everything a command says about itself. */
  function Pieces(command: Command, lower: char -> char): (r: seq<string>)
    ensures r != []
  {
    [Lower(command.title, lower), Lower(command.id, lower), Lower(command.hint, lower)] + Aliases(command, lower)
  }

  /** How well a command answers a term: lower is better, -1 is not at all. */
  function RankCommand(command: Command, term: string, lower: char -> char): (rank: int)
    ensures -1 <= rank <= 7
  {
    var needle := Needle(term, lower);
    if needle == "" then 0
    else
      var title := Lower(command.title, lower);
      var aliases := Aliases(command, lower);
      if title == needle then 0
      else if StartsWith(title, needle) then 1
      else if Contains(title, needle) then 2
      else if needle in aliases then 3
      else if exists k :: 0 <= k < |aliases| && StartsWith(aliases[k], needle) then 4
      else if AnyContains(aliases, needle) then 5
      else
        var words := Words(needle);
        if |words| > 1 && forall k :: 0 <= k < |words| ==> Contains(Join(Pieces(command, lower)), words[k]) then 6
        else if Contains(Lower(command.id, lower), needle) then 7
        else -1
  }

  lemma ContainsItself(text: string, word: string)
    ensures StartsWith(text, word) ==> Contains(text, word)
  {
    assert text[0..] == text;
  }

  /**
   The tiers are nested: up to 0 the title is the term, up to 1 it starts with it, up to 2 it
   contains it, and up to 5 the title or an alias or keyword contains it.
   */
  lemma TiersAreNested(command: Command, term: string, lower: char -> char)
    requires Needle(term, lower) != ""
    ensures var needle, rank := Needle(term, lower), RankCommand(command, term, lower);
      var title := Lower(command.title, lower);
      && (0 <= rank <= 0 <==> title == needle)
      && (0 <= rank <= 1 <==> StartsWith(title, needle))
      && (0 <= rank <= 2 <==> Contains(title, needle))
      && (0 <= rank <= 5 <==> Contains(title, needle) || AnyContains(Aliases(command, lower), needle))
  {
    var needle, title, aliases := Needle(term, lower), Lower(command.title, lower), Aliases(command, lower);
    ContainsItself(title, needle);
    if needle in aliases {
      var k :| 0 <= k < |aliases| && aliases[k] == needle;
      ContainsItself(aliases[k], needle);
    }
    if k :| 0 <= k < |aliases| && StartsWith(aliases[k], needle) {
      ContainsItself(aliases[k], needle);
    }
  }

  /** A word without a space lies on one side of the separator. */
  lemma ContainsAcross(a: string, b: string, word: string)
    requires word != "" && NoSpace(word)
    ensures Contains(a + " " + b, word) <==> Contains(a, word) || Contains(b, word)
  {
    var whole := a + " " + b;
    if Contains(whole, word) {
      var i :| 0 <= i <= |whole| && StartsWith(whole[i..], word);
      assert forall k :: 0 <= k < |word| ==> whole[i + k] == word[k];
      assert whole[|a|] == ' ';
      assert i <= |a| < i + |word| ==> IsSpace(word[|a| - i]);
      if i + |word| <= |a| {
        assert whole[i..][..|word|] == a[i..][..|word|];
      } else {
        assert whole[i..] == b[i - |a| - 1..];
      }
    }
    if Contains(a, word) {
      var i :| 0 <= i <= |a| && StartsWith(a[i..], word);
      assert whole[i..][..|word|] == a[i..][..|word|];
    }
    if Contains(b, word) {
      var i :| 0 <= i <= |b| && StartsWith(b[i..], word);
      assert whole[|a| + 1 + i..] == b[i..];
    }
  }

  /** Searching the joined text is searching its pieces. */
  lemma {:induction false} JoinedContains(texts: seq<string>, word: string)
    requires texts != [] && word != "" && NoSpace(word)
    ensures Contains(Join(texts), word) <==> AnyContains(texts, word)
  {
    if |texts| > 1 {
      ContainsAcross(texts[0], Join(texts[1..]), word);
      JoinedContains(texts[1..], word);
      assert forall k :: 1 <= k < |texts| ==> texts[k] == texts[1..][k - 1];
    }
  }

  lemma ContainsThrough(text: string, middle: string, word: string)
    requires Contains(text, middle) && Contains(middle, word)
    ensures Contains(text, word)
  {
    var i :| 0 <= i <= |text| && StartsWith(text[i..], middle);
    var k :| 0 <= k <= |middle| && StartsWith(middle[k..], word);
    assert text[i..][..|middle|] == middle && middle[k..][..|word|] == word;
    assert forall j :: 0 <= j < |word| ==> word[j] == middle[k + j] == text[i + k + j];
    assert text[i + k..][..|word|] == word;
  }

  /** Every word is a non-empty piece of the text without spaces in it. */
  lemma {:induction false} WordsAreWords(s: string)
    ensures forall k :: 0 <= k < |Words(s)| ==>
      Words(s)[k] != "" && NoSpace(Words(s)[k]) && Contains(s, Words(s)[k])
  {
    if s != "" {
      var n := if IsSpace(s[0]) then 1 else WordLength(s);
      WordsAreWords(s[n..]);
      assert s[0..][..n] == s[..n];
      forall k | 0 <= k < |Words(s[n..])|
        ensures Contains(s, Words(s[n..])[k])
      {
        assert StartsWith(s[n..], s[n..]);
        assert s[n..][0..] == s[n..];
        ContainsThrough(s, s[n..], Words(s[n..])[k]);
      }
      assert !IsSpace(s[0]) ==> Contains(s, s[..n]);
    }
  }

  lemma SomeWord(s: string)
    requires s != "" && !IsSpace(s[|s| - 1])
    ensures Words(s) != []
  {
    if IsSpace(s[0]) {
      SomeWord(s[1..]);
    }
  }

  /** A text trimmed at both ends has one word exactly when it is one. */
  lemma OneWord(s: string)
    requires s != "" && Trimmed(s)
    ensures |Words(s)| >= 1 && (|Words(s)| == 1 <==> NoSpace(s))
    ensures |Words(s)| == 1 ==> Words(s)[0] == s
  {
    var n := WordLength(s);
    if n < |s| {
      SomeWord(s[n..]);
      assert !NoSpace(s);
    } else {
      assert s[..n] == s && s[n..] == "";
    }
  }

  /** The whole term in one text puts each of its words there. */
  lemma WordsFollow(texts: seq<string>, needle: string)
    requires AnyContains(texts, needle)
    ensures forall k :: 0 <= k < |Words(needle)| ==> AnyContains(texts, Words(needle)[k])
  {
    var i :| 0 <= i < |texts| && Contains(texts[i], needle);
    WordsAreWords(needle);
    forall k | 0 <= k < |Words(needle)|
      ensures AnyContains(texts, Words(needle)[k])
    {
      ContainsThrough(texts[i], needle, Words(needle)[k]);
    }
  }

  lemma WordsInTheJoin(texts: seq<string>, needle: string)
    requires texts != []
    ensures (forall k :: 0 <= k < |Words(needle)| ==> Contains(Join(texts), Words(needle)[k]))
      <==> (forall k :: 0 <= k < |Words(needle)| ==> AnyContains(texts, Words(needle)[k]))
  {
    WordsAreWords(needle);
    forall k | 0 <= k < |Words(needle)|
      ensures Contains(Join(texts), Words(needle)[k]) <==> AnyContains(texts, Words(needle)[k])
    {
      JoinedContains(texts, Words(needle)[k]);
    }
  }

  lemma AnyContainsPlus(more: seq<string>, texts: seq<string>, word: string)
    ensures AnyContains(more + texts, word) <==> AnyContains(more, word) || AnyContains(texts, word)
  {
    assert forall i :: 0 <= i < |more| ==> (more + texts)[i] == more[i];
    assert forall i :: 0 <= i < |texts| ==> (more + texts)[i + |more|] == texts[i];
  }

  /** What a single word is looked for in. */
  function Named(command: Command, lower: char -> char): seq<string> {
    [Lower(command.title, lower), Lower(command.id, lower)] + Aliases(command, lower)
  }

  lemma NamedIsSaid(command: Command, word: string, lower: char -> char)
    ensures AnyContains(Named(command, lower), word) <==>
      || Contains(Lower(command.title, lower), word)
      || Contains(Lower(command.id, lower), word)
      || AnyContains(Aliases(command, lower), word)
    ensures AnyContains(Named(command, lower), word) ==> AnyContains(Pieces(command, lower), word)
  {
    var title, id, hint := Lower(command.title, lower), Lower(command.id, lower), Lower(command.hint, lower);
    AnyContainsPlus([title, id], Aliases(command, lower), word);
    AnyContainsPlus([title, id, hint], Aliases(command, lower), word);
    assert [title, id][0] == title && [title, id][1] == id;
    assert [title, id, hint][0] == title && [title, id, hint][1] == id;
  }

  /** The rank is at least 0 in one of these cases, whatever tier it is. */
  lemma RankedWhen(command: Command, term: string, lower: char -> char)
    requires Needle(term, lower) != ""
    ensures var needle := Needle(term, lower);
      RankCommand(command, term, lower) >= 0 <==>
        || AnyContains(Named(command, lower), needle)
        || (|Words(needle)| > 1 && forall k :: 0 <= k < |Words(needle)| ==> Contains(Join(Pieces(command, lower)), Words(needle)[k]))
  {
    TiersAreNested(command, term, lower);
    NamedIsSaid(command, Needle(term, lower), lower);
  }

  /** What the rank is 0 or better for, in a reader's terms. */
  ghost predicate Answers(command: Command, needle: string, lower: char -> char) {
    || needle == ""
    || (if NoSpace(needle) then AnyContains(Named(command, lower), needle)
        else forall k :: 0 <= k < |Words(needle)| ==> AnyContains(Pieces(command, lower), Words(needle)[k]))
  }

  lemma TrimmedNeedleMatches(command: Command, term: string, lower: char -> char)
    requires Trimmed(Needle(term, lower))
    ensures RankCommand(command, term, lower) >= 0 <==> Answers(command, Needle(term, lower), lower)
  {
    var needle := Needle(term, lower);
    if needle != "" {
      OneWord(needle);
      RankedWhen(command, term, lower);
      NamedIsSaid(command, needle, lower);
      WordsInTheJoin(Pieces(command, lower), needle);
      if AnyContains(Named(command, lower), needle) {
        WordsFollow(Pieces(command, lower), needle);
      }
    }
  }

  /**
   Which commands match at all. A term of several words matches when every word appears somewhere
   in what the command says about itself; a single word must appear in its title, its id, an alias
   or a keyword, and a word that appears in the hint alone does not.
   */
  lemma MatchesExactlyWhen(command: Command, term: string, lower: char -> char)
    requires forall c :: IsSpace(lower(c)) <==> IsSpace(c)
    ensures RankCommand(command, term, lower) >= 0 <==> Answers(command, Needle(term, lower), lower)
  {
    TrimIsIdempotent(term);
    TrimmedNeedleMatches(command, term, lower);
  }

  // ---- the matches, best first

  /** Sorted before: by rank, and by the registry's order where the ranks are equal. */
  predicate Precedes(ranks: seq<int>, a: nat, b: nat)
    requires a < |ranks| && b < |ranks|
  {
    ranks[a] < ranks[b] || (ranks[a] == ranks[b] && a < b)
  }

  ghost predicate IsMatchOrder(order: seq<nat>, ranks: seq<int>) {
    AllRanked(order, ranks) && NoneMissing(order, ranks) && InOrder(order, ranks)
  }

  predicate AllRanked(order: seq<nat>, ranks: seq<int>) {
    forall k :: 0 <= k < |order| ==> order[k] < |ranks| && ranks[order[k]] >= 0
  }

  predicate NoneMissing(order: seq<nat>, ranks: seq<int>) {
    forall i :: 0 <= i < |ranks| && ranks[i] >= 0 ==> i in order
  }

  ghost predicate InOrder(order: seq<nat>, ranks: seq<int>)
    requires AllRanked(order, ranks)
  {
    forall j, k :: 0 <= j < k < |order| ==> Precedes(ranks, order[j], order[k])
  }

  function Place(order: seq<nat>, ranks: seq<int>, i: nat): (p: nat)
    requires i < |ranks| && forall k :: 0 <= k < |order| ==> order[k] < |ranks|
    ensures p <= |order|
    ensures p < |order| ==> Precedes(ranks, i, order[p])
    ensures forall k :: 0 <= k < p ==> !Precedes(ranks, i, order[k])
  {
    if order == [] || Precedes(ranks, i, order[0]) then 0
    else Place(order[1..], ranks, i) + 1
  }

  /** The positions of the matches in sorted order, one command at a time. */
  function MatchOrder(ranks: seq<int>): (order: seq<nat>)
    ensures forall k :: 0 <= k < |order| ==> order[k] < |ranks|
  {
    if ranks == [] then []
    else
      WithLast(MatchOrder(ranks[..|ranks| - 1]), ranks)
  }

  /** The positions with the last one put in its place, if it has a rank. */
  function WithLast(before: seq<nat>, ranks: seq<int>): (order: seq<nat>)
    requires ranks != [] && forall k :: 0 <= k < |before| ==> before[k] < |ranks|
    ensures forall k :: 0 <= k < |order| ==> order[k] < |ranks|
  {
    var i := |ranks| - 1;
    if ranks[i] < 0 then before
    else
      var p := Place(before, ranks, i);
      before[..p] + [i] + before[p..]
  }

  function Ranks(commands: seq<Command>, term: string, lower: char -> char): (r: seq<int>)
    ensures |r| == |commands|
  {
    seq(|commands|, k requires 0 <= k < |commands| => RankCommand(commands[k], term, lower))
  }

  function Picked(commands: seq<Command>, order: seq<nat>): (r: seq<Command>)
    requires forall k :: 0 <= k < |order| ==> order[k] < |commands|
    ensures |r| == |order|
  {
    seq(|order|, k requires 0 <= k < |order| => commands[order[k]])
  }

  function MatchCommands(commands: seq<Command>, term: string, limit: Option<nat>, lower: char -> char): seq<Command> {
    var ranked := Picked(commands, MatchOrder(Ranks(commands, term, lower)));
    if limit.Some? then Take(ranked, limit.value) else ranked
  }

  lemma PlaceKeepsOrder(order: seq<nat>, ranks: seq<int>, i: nat)
    requires i < |ranks| && forall k :: 0 <= k < |order| ==> order[k] < i
    requires forall j, k :: 0 <= j < k < |order| ==> Precedes(ranks, order[j], order[k])
    ensures var p := Place(order, ranks, i);
      var longer := order[..p] + [i] + order[p..];
      forall j, k :: 0 <= j < k < |longer| ==> Precedes(ranks, longer[j], longer[k])
  {
    var p := Place(order, ranks, i);
    var longer := order[..p] + [i] + order[p..];
    assert forall k :: 0 <= k < p ==> longer[k] == order[k] && Precedes(ranks, order[k], i);
    assert longer[p] == i;
    forall k | p < k < |longer|
      ensures longer[k] == order[k - 1] && Precedes(ranks, i, longer[k])
    {
      assert Precedes(ranks, i, order[p]);
      assert k - 1 > p ==> Precedes(ranks, order[p], order[k - 1]);
    }
  }

  lemma PlaceKeepsMembers(order: seq<nat>, ranks: seq<int>, i: nat, a: nat)
    requires i < |ranks| && forall k :: 0 <= k < |order| ==> order[k] < |ranks|
    ensures var p := Place(order, ranks, i);
      a in order[..p] + [i] + order[p..] <==> a == i || a in order
  {
    var p := Place(order, ranks, i);
    assert order == order[..p] + order[p..];
  }

  lemma OneMoreRank(before: seq<nat>, ranks: seq<int>, order: seq<nat>)
    requires ranks != [] && IsMatchOrder(before, ranks[..|ranks| - 1])
    requires order == WithLast(before, ranks)
    ensures IsMatchOrder(order, ranks)
  {
    LastIsRanked(before, ranks);
    LastIsNotMissing(before, ranks);
    LastIsInOrder(before, ranks);
  }

  lemma LastIsInOrder(before: seq<nat>, ranks: seq<int>)
    requires ranks != [] && AllRanked(before, ranks[..|ranks| - 1]) && InOrder(before, ranks[..|ranks| - 1])
    requires AllRanked(WithLast(before, ranks), ranks)
    ensures InOrder(WithLast(before, ranks), ranks)
  {
    var i, shorter := |ranks| - 1, ranks[..|ranks| - 1];
    forall j, k | 0 <= j < k < |before|
      ensures Precedes(ranks, before[j], before[k])
    {
      assert Precedes(shorter, before[j], before[k]);
    }
    if ranks[i] >= 0 {
      PlaceKeepsOrder(before, ranks, i);
    }
  }

  lemma LastIsRanked(before: seq<nat>, ranks: seq<int>)
    requires ranks != [] && AllRanked(before, ranks[..|ranks| - 1])
    ensures AllRanked(WithLast(before, ranks), ranks)
  {
    var i := |ranks| - 1;
    if ranks[i] >= 0 {
      var p, order := Place(before, ranks, i), WithLast(before, ranks);
      assert forall k :: 0 <= k < |order| ==> order[k] == if k < p then before[k] else if k == p then i else before[k - 1];
    }
  }

  lemma LastIsNotMissing(before: seq<nat>, ranks: seq<int>)
    requires ranks != [] && AllRanked(before, ranks[..|ranks| - 1]) && NoneMissing(before, ranks[..|ranks| - 1])
    ensures NoneMissing(WithLast(before, ranks), ranks)
  {
    var i := |ranks| - 1;
    forall a | 0 <= a < |ranks| && ranks[a] >= 0
      ensures a in WithLast(before, ranks)
    {
      assert a < i ==> ranks[..i][a] >= 0;
      if ranks[i] >= 0 {
        PlaceKeepsMembers(before, ranks, i, a);
      }
    }
  }

  lemma {:induction false} MatchOrderIsSorted(ranks: seq<int>)
    ensures IsMatchOrder(MatchOrder(ranks), ranks)
  {
    if ranks != [] {
      MatchOrderIsSorted(ranks[..|ranks| - 1]);
      OneMoreRank(MatchOrder(ranks[..|ranks| - 1]), ranks, MatchOrder(ranks));
    }
  }

  /** The order leaves no choice: whatever sorts by rank and position sorts like this. */
  lemma {:induction false} OnlyOneOrder(order: seq<nat>, other: seq<nat>, ranks: seq<int>)
    requires forall k :: 0 <= k < |order| ==> order[k] < |ranks|
    requires forall k :: 0 <= k < |other| ==> other[k] < |ranks|
    requires forall j, k :: 0 <= j < k < |order| ==> Precedes(ranks, order[j], order[k])
    requires forall j, k :: 0 <= j < k < |other| ==> Precedes(ranks, other[j], other[k])
    requires forall i :: i in order <==> i in other
    ensures order == other
  {
    assert other != [] ==> other[0] in order;
    if order != [] {
      assert order[0] in other;
      assert order[0] == other[0];
      forall i
        ensures i in order[1..] <==> i in other[1..]
      {
        InTail(order, i, ranks);
        InTail(other, i, ranks);
      }
      OnlyOneOrder(order[1..], other[1..], ranks);
      assert order == [order[0]] + order[1..] && other == [other[0]] + other[1..];
    }
  }

  lemma InTail(order: seq<nat>, i: nat, ranks: seq<int>)
    requires order != [] && forall k :: 0 <= k < |order| ==> order[k] < |ranks|
    requires forall j, k :: 0 <= j < k < |order| ==> Precedes(ranks, order[j], order[k])
    ensures i in order[1..] <==> i in order && i != order[0]
  {
    if i in order && i != order[0] {
      var k :| 0 <= k < |order| && order[k] == i;
      assert order[1..][k - 1] == i;
    }
    if i in order[1..] {
      var k :| 0 <= k < |order[1..]| && order[1..][k] == i;
      assert order[k + 1] == i;
    }
  }

  /**
   The matches are exactly the commands with a rank, sorted by rank and then by their place in the
   registry; every list of positions so sorted gives this answer; and a limit keeps the first ones.
   */
  lemma MatchesAreTheSortedRanks(commands: seq<Command>, term: string, limit: nat, order: seq<nat>, lower: char -> char)
    ensures IsMatchOrder(MatchOrder(Ranks(commands, term, lower)), Ranks(commands, term, lower))
    ensures IsMatchOrder(order, Ranks(commands, term, lower)) ==>
      MatchCommands(commands, term, None, lower) == Picked(commands, order)
    ensures MatchCommands(commands, term, Some(limit), lower) <= MatchCommands(commands, term, None, lower)
    ensures |MatchCommands(commands, term, Some(limit), lower)| <= limit
    ensures |MatchCommands(commands, term, None, lower)| <= limit ==>
      MatchCommands(commands, term, Some(limit), lower) == MatchCommands(commands, term, None, lower)
  {
    var ranks := Ranks(commands, term, lower);
    MatchOrderIsSorted(ranks);
    if IsMatchOrder(order, ranks) {
      OnlyOneOrder(MatchOrder(ranks), order, ranks);
    }
  }

  // ---- the history as rows

  datatype Recent = Recent(
    kind: string, query: Option<string>, commandId: Option<string>, title: Option<string>,
    route: Option<string>, resultCount: Option<int>)

  datatype Row =
    | QueryRow(id: string, text: string, query: string, resultCount: Option<int>)
    | CommandRow(id: string, text: string, commandId: string, route: string)

  /** The row a stored recent becomes, when it has somewhere to go. */
  function RowOf(recent: Recent, lower: char -> char): Option<Row> {
    if recent.kind == "query" then
      var query := Trim(OrEmpty(recent.query));
      if query == "" then None else Some(QueryRow("query:" + Lower(query, lower), query, query, recent.resultCount))
    else if recent.kind == "command" then
      var id, route := OrEmpty(recent.commandId), OrEmpty(recent.route);
      if id == "" || route == "" then None
      else Some(CommandRow("command:" + id, if recent.title.Some? then recent.title.value else id, id, route))
    else None
  }

  function RowsOf(recents: seq<Recent>, lower: char -> char): seq<Row> {
    if recents == [] then []
    else
      var last := RowOf(recents[|recents| - 1], lower);
      RowsOf(recents[..|recents| - 1], lower) + (if last.Some? then [last.value] else [])
  }

  function RowId(row: Row): string {
    row.id
  }

  /** The rows the loop has seen: with the early break, and with the set of keys it keeps. */
  method RecentRows(recents: seq<Recent>, limit: int, lower: char -> char) returns (rows: seq<Row>)
    ensures rows == Take(Firsts(RowsOf(recents, lower), RowId), limit)
  {
    rows := [];
    var seen: set<string> := {};
    var i := 0;
    assert recents[..0] == [];
    while i < |recents| && |rows| < limit
      invariant i <= |recents| && IsSoFar(rows, seen, RowsOf(recents[..i], lower))
      invariant |rows| <= limit || i == 0
    {
      var row := RowOf(recents[i], lower);
      OneRecentMore(recents, i, lower);
      OneMoreRow(rows, seen, RowsOf(recents[..i], lower), row);
      if row.Some? && row.value.id !in seen {
        seen := seen + {row.value.id};
        rows := rows + [row.value];
      }
      i := i + 1;
    }
    RowsGrow(recents, i, lower);
    if i == |recents| {
      assert recents[..i] == recents;
    }
  }

  /** What the loop's variables say about the rows read so far. */
  ghost predicate IsSoFar(rows: seq<Row>, seen: set<string>, soFar: seq<Row>) {
    rows == Firsts(soFar, RowId) && forall k :: k in seen <==> HasKey(soFar, RowId, k)
  }

  lemma OneRecentMore(recents: seq<Recent>, i: nat, lower: char -> char)
    requires i < |recents|
    ensures RowsOf(recents[..i + 1], lower)
      == RowsOf(recents[..i], lower) + (if RowOf(recents[i], lower).Some? then [RowOf(recents[i], lower).value] else [])
  {
    assert recents[..i + 1][..i] == recents[..i];
  }

  lemma OneMoreRow(rows: seq<Row>, seen: set<string>, soFar: seq<Row>, next: Option<Row>)
    requires IsSoFar(rows, seen, soFar)
    ensures soFar + [] == soFar
    ensures next.Some? ==> IsSoFar(
      if next.value.id in seen then rows else rows + [next.value],
      if next.value.id in seen then seen else seen + {next.value.id},
      soFar + [next.value])
  {
    if next.Some? {
      FirstsAppend(soFar, next.value, RowId);
      forall k
        ensures HasKey(soFar + [next.value], RowId, k) <==> HasKey(soFar, RowId, k) || next.value.id == k
      {
        HasKeyAppend(soFar, next.value, RowId, k);
      }
    }
  }

  /** Reading on only adds rows at the end. */
  lemma {:induction false} RowsGrow(recents: seq<Recent>, i: nat, lower: char -> char)
    requires i <= |recents|
    ensures Firsts(RowsOf(recents[..i], lower), RowId) <= Firsts(RowsOf(recents, lower), RowId)
  {
    if i == |recents| {
      assert recents[..i] == recents;
    } else {
      var last := RowOf(recents[|recents| - 1], lower);
      RowsGrow(recents[..|recents| - 1], i, lower);
      assert recents[..|recents| - 1][..i] == recents[..i];
      if last.Some? {
        FirstsAppend(RowsOf(recents[..|recents| - 1], lower), last.value, RowId);
      }
      assert RowsOf(recents[..|recents| - 1], lower) + [] == RowsOf(recents[..|recents| - 1], lower);
    }
  }

  /** A row with somewhere to go. */
  predicate IsAlive(row: Row) {
    match row
    case QueryRow(_, _, query, _) => query != ""
    case CommandRow(_, _, commandId, route) => commandId != "" && route != ""
  }

  lemma RowsAreAlive(recent: Recent, lower: char -> char)
    ensures RowOf(recent, lower).Some? ==> IsAlive(RowOf(recent, lower).value)
  {
  }

  lemma {:induction false} AllRowsAreAlive(recents: seq<Recent>, lower: char -> char)
    ensures forall k :: 0 <= k < |RowsOf(recents, lower)| ==> IsAlive(RowsOf(recents, lower)[k])
  {
    if recents != [] {
      AllRowsAreAlive(recents[..|recents| - 1], lower);
      RowsAreAlive(recents[|recents| - 1], lower);
    }
  }

  /** No two rows of the list open the same thing, none is a dead row, and the limit holds. */
  lemma RecentRowsAreDistinct(recents: seq<Recent>, limit: int, lower: char -> char)
    ensures var rows := Take(Firsts(RowsOf(recents, lower), RowId), limit);
      && DistinctKeys(rows, RowId)
      && |rows| <= (if limit < 0 then 0 else limit)
      && forall k :: 0 <= k < |rows| ==> IsAlive(rows[k])
  {
    var all := RowsOf(recents, lower);
    FirstsAreDistinct(all, RowId);
    AllRowsAreAlive(recents, lower);
    forall k | 0 <= k < |Firsts(all, RowId)|
      ensures IsAlive(Firsts(all, RowId)[k])
    {
      var at := FirstsAreFirst(all, RowId, k);
    }
  }

  // ---- commands in groups

  datatype CommandGroup = CommandGroup(group: string, commands: seq<Command>)

  function GroupOf(command: Command): string {
    command.group
  }

  function InGroup(commands: seq<Command>, group: string): seq<Command> {
    if commands == [] then []
    else
      var last := commands[|commands| - 1];
      InGroup(commands[..|commands| - 1], group) + (if last.group == group then [last] else [])
  }

  /** One group for every name in the order of first appearance, each with its commands in order. */
  ghost predicate IsGrouping(groups: seq<CommandGroup>, commands: seq<Command>) {
    && |groups| == |Firsts(commands, GroupOf)|
    && forall k :: 0 <= k < |groups| ==>
      && groups[k].group == Firsts(commands, GroupOf)[k].group
      && groups[k].commands == InGroup(commands, groups[k].group)
  }

  /** Finding the group, and pushing onto it or onto the list of groups. */
  method GroupCommands(commands: seq<Command>) returns (groups: seq<CommandGroup>)
    ensures IsGrouping(groups, commands)
  {
    groups := [];
    assert commands[..0] == [];
    for i := 0 to |commands|
      invariant IsGrouping(groups, commands[..i])
    {
      var command := commands[i];
      ghost var before := commands[..i];
      assert commands[..i + 1] == before + [command];
      var at := 0;
      while at < |groups| && groups[at].group != command.group
        invariant at <= |groups|
        invariant forall k :: 0 <= k < at ==> groups[k].group != command.group
      {
        at := at + 1;
      }
      OneMoreCommand(groups, before, command, at);
      if at < |groups| {
        groups := groups[at := groups[at].(commands := groups[at].commands + [command])];
      } else {
        groups := groups + [CommandGroup(command.group, [command])];
      }
    }
    assert commands[..|commands|] == commands;
  }

  /** The loop looks for the command's group and finds it exactly when the name was there before. */
  lemma TheGroupIsFound(groups: seq<CommandGroup>, before: seq<Command>, group: string, at: nat)
    requires IsGrouping(groups, before) && at <= |groups|
    requires forall k :: 0 <= k < at ==> groups[k].group != group
    requires at < |groups| ==> groups[at].group == group
    ensures at < |groups| <==> HasKey(before, GroupOf, group)
    ensures forall k :: 0 <= k < |groups| && k != at ==> groups[k].group != group
  {
    var firsts := Firsts(before, GroupOf);
    FirstsAreDistinct(before, GroupOf);
    assert forall k :: 0 <= k < |firsts| ==> GroupOf(firsts[k]) == groups[k].group;
    assert at < |groups| ==> GroupOf(firsts[at]) == group;
  }

  lemma OneMoreCommand(groups: seq<CommandGroup>, before: seq<Command>, command: Command, at: nat)
    requires IsGrouping(groups, before) && at <= |groups|
    requires forall k :: 0 <= k < at ==> groups[k].group != command.group
    requires at < |groups| ==> groups[at].group == command.group
    ensures IsGrouping(
      if at < |groups| then groups[at := groups[at].(commands := groups[at].commands + [command])]
      else groups + [CommandGroup(command.group, [command])],
      before + [command])
  {
    FirstsAppend(before, command, GroupOf);
    TheGroupIsFound(groups, before, command.group, at);
    NoneInGroup(before, command.group);
    assert (before + [command])[..|before|] == before;
  }

  lemma {:induction false} NoneInGroup(commands: seq<Command>, group: string)
    ensures InGroup(commands, group) == [] <==> !HasKey(commands, GroupOf, group)
  {
    if commands != [] {
      var before, last := commands[..|commands| - 1], commands[|commands| - 1];
      NoneInGroup(before, group);
      assert before + [last] == commands;
      HasKeyAppend(before, last, GroupOf, group);
    }
  }

  function Flattened(groups: seq<CommandGroup>): seq<Command> {
    if groups == [] then [] else Flattened(groups[..|groups| - 1]) + groups[|groups| - 1].commands
  }

  /** How often a command stands in the group of its own name. */
  lemma {:induction false} CountInGroup(commands: seq<Command>, group: string, command: Command)
    ensures multiset(InGroup(commands, group))[command]
      == if command.group == group then multiset(commands)[command] else 0
  {
    if commands != [] {
      CountInGroup(commands[..|commands| - 1], group, command);
      assert commands == commands[..|commands| - 1] + [commands[|commands| - 1]];
    }
  }

  /** How often a command stands in a list of groups with distinct names. */
  lemma {:induction false} CountInGroups(groups: seq<CommandGroup>, commands: seq<Command>, command: Command)
    requires forall k :: 0 <= k < |groups| ==> groups[k].commands == InGroup(commands, groups[k].group)
    requires forall j, k :: 0 <= j < k < |groups| ==> groups[j].group != groups[k].group
    ensures multiset(Flattened(groups))[command] == if HasGroup(groups, command.group) then multiset(commands)[command] else 0
  {
    if groups != [] {
      var n := |groups| - 1;
      var front, last := groups[..n], groups[n];
      CountInGroups(front, commands, command);
      CountInGroup(commands, last.group, command);
      OneGroupMore(front, last, command.group);
      assert front + [last] == groups;
      CountOfBoth(Flattened(front), last.commands, command);
    }
  }

  predicate HasGroup(groups: seq<CommandGroup>, group: string) {
    exists k :: 0 <= k < |groups| && groups[k].group == group
  }

  lemma OneGroupMore(groups: seq<CommandGroup>, last: CommandGroup, group: string)
    ensures HasGroup(groups + [last], group) <==> HasGroup(groups, group) || last.group == group
    ensures (forall j, k :: 0 <= j < k < |groups + [last]| ==> (groups + [last])[j].group != (groups + [last])[k].group) ==>
      !(HasGroup(groups, group) && last.group == group)
  {
    var longer := groups + [last];
    assert longer[|groups|] == last && forall k :: 0 <= k < |groups| ==> longer[k] == groups[k];
  }

  lemma CountOfBoth(a: seq<Command>, b: seq<Command>, command: Command)
    ensures multiset(a + b)[command] == multiset(a)[command] + multiset(b)[command]
  {
  }

  /** The groups carry the names that occur, each once. */
  lemma GroupNames(groups: seq<CommandGroup>, commands: seq<Command>)
    requires IsGrouping(groups, commands)
    ensures forall j, k :: 0 <= j < k < |groups| ==> groups[j].group != groups[k].group
    ensures forall name :: (exists k :: 0 <= k < |groups| && groups[k].group == name) <==> HasKey(commands, GroupOf, name)
  {
    var firsts := Firsts(commands, GroupOf);
    FirstsAreDistinct(commands, GroupOf);
    assert forall k :: 0 <= k < |firsts| ==> GroupOf(firsts[k]) == groups[k].group;
  }

  /** Grouping loses no command, invents none, and keeps every one as often as it was sent. */
  lemma GroupingIsAPartition(groups: seq<CommandGroup>, commands: seq<Command>)
    requires IsGrouping(groups, commands)
    ensures multiset(Flattened(groups)) == multiset(commands)
    ensures forall j, k :: 0 <= j < k < |groups| ==> groups[j].group != groups[k].group
    ensures forall k :: 0 <= k < |groups| ==> groups[k].commands != []
  {
    GroupNames(groups, commands);
    forall k | 0 <= k < |groups|
      ensures groups[k].commands != []
    {
      NoneInGroup(commands, groups[k].group);
    }
    forall command
      ensures multiset(Flattened(groups))[command] == multiset(commands)[command]
    {
      CountInGroups(groups, commands, command);
      if command in commands {
        assert HasKey(commands, GroupOf, GroupOf(command));
      }
    }
  }
}
