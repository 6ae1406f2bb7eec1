/**
 Splitting a title around the words that matched. The regular expression the code builds is an
 alternation of literal words, case-insensitive and global: at the leftmost position where any word
 matches, the first word of the list that does is taken, and the scan goes on behind it.

 `fold` is the engine's case folding, one character at a time; it may be any function.
 */
module Highlight {
  import opened Options
  import opened Text
  import opened Sequences

  datatype Part = Part(text: string, matched: bool)

  /** Two texts that are the same up to case. */
  predicate SameText(a: string, b: string, fold: char -> char) {
    |a| == |b| && forall k :: 0 <= k < |a| ==> fold(a[k]) == fold(b[k])
  }

  /** Whether `word` occurs at the start of `s`. */
  predicate Occurs(s: string, word: string, fold: char -> char) {
    |word| <= |s| && SameText(s[..|word|], word, fold)
  }

  predicate AllWords(needles: seq<string>) {
    forall i :: 0 <= i < |needles| ==> needles[i] != ""
  }

  /** The words that are searched for: trimmed, and the empty ones dropped. */
  function Needles(terms: seq<string>): (r: seq<string>)
    ensures AllWords(r)
  {
    if terms == [] then []
    else (if Trim(terms[0]) != "" then [Trim(terms[0])] else []) + Needles(terms[1..])
  }

  /** The length of the first needle of the list that occurs at the start of `s`. */
  function FirstMatch(s: string, needles: seq<string>, fold: char -> char): (r: Option<nat>)
    requires AllWords(needles)
    ensures r != None ==> 0 < r.value <= |s|
  {
    if needles == [] then None
    else if Occurs(s, needles[0], fold) then Some(|needles[0]|)
    else FirstMatch(s, needles[1..], fold)
  }

  /** There is a match exactly when some needle occurs. */
  lemma {:induction false} NoMatchMeansNoNeedle(s: string, needles: seq<string>, fold: char -> char)
    requires AllWords(needles)
    ensures FirstMatch(s, needles, fold) == None <==> forall i :: 0 <= i < |needles| ==> !Occurs(s, needles[i], fold)
  {
    if needles != [] {
      NoMatchMeansNoNeedle(s, needles[1..], fold);
      assert forall i :: 1 <= i < |needles| ==> needles[i] == needles[1..][i - 1];
    }
  }

  /** A match is the first needle of the list that occurs: not the longest one. */
  lemma {:induction false} MatchIsTheFirstNeedle(s: string, needles: seq<string>, fold: char -> char) returns (i: nat)
    requires AllWords(needles) && FirstMatch(s, needles, fold) != None
    ensures i < |needles| && |needles[i]| == FirstMatch(s, needles, fold).value
    ensures Occurs(s, needles[i], fold) && forall k :: 0 <= k < i ==> !Occurs(s, needles[k], fold)
  {
    if Occurs(s, needles[0], fold) {
      i := 0;
    } else {
      var rest := MatchIsTheFirstNeedle(s, needles[1..], fold);
      assert forall k :: 1 <= k <= rest ==> needles[k] == needles[1..][k - 1];
      i := rest + 1;
    }
  }

  /** How far the next match is: the number of positions at the start of `s` without one. */
  function Gap(s: string, needles: seq<string>, fold: char -> char): (g: nat)
    requires AllWords(needles)
    ensures g <= |s|
    ensures g < |s| ==> FirstMatch(s[g..], needles, fold) != None
  {
    if s == "" then 0
    else if FirstMatch(s, needles, fold) != None then
      assert s[0..] == s;
      0
    else
      assert forall p :: 1 <= p <= |s| ==> s[p..] == s[1..][p - 1..];
      Gap(s[1..], needles, fold) + 1
  }

  function Before(s: string, g: nat): seq<Part>
    requires g <= |s|
  {
    if g > 0 then [Part(s[..g], false)] else []
  }

  /** The parts of a title: what stands before the first match, and then from that match on. */
  function Parts(s: string, needles: seq<string>, fold: char -> char): seq<Part>
    requires AllWords(needles)
    decreases |s|, 1
  {
    var g := Gap(s, needles, fold);
    Before(s, g) + FromMatch(s[g..], needles, fold)
  }

  function FromMatch(s: string, needles: seq<string>, fold: char -> char): seq<Part>
    requires AllWords(needles)
    requires s != "" ==> FirstMatch(s, needles, fold) != None
    decreases |s|, 0
  {
    if s == "" then []
    else
      var n := FirstMatch(s, needles, fold).value;
      [Part(s[..n], true)] + Parts(s[n..], needles, fold)
  }

  /** What the function answers: no needles, or an empty title, make one unmatched part. */
  function Highlighted(title: string, terms: seq<string>, fold: char -> char): seq<Part> {
    if Needles(terms) == [] || title == "" then [Part(title, false)]
    else Parts(title, Needles(terms), fold)
  }

  /** From the end of one match to the next, in positions of the title. */
  lemma UpToTheMatch(title: string, last: nat, index: nat, needles: seq<string>, fold: char -> char)
    requires AllWords(needles)
    requires last <= |title| && index == last + Gap(title[last..], needles, fold)
    ensures index <= |title| && (index < |title| ==> FirstMatch(title[index..], needles, fold) != None)
    ensures Parts(title[last..], needles, fold)
      == (if index > last then [Part(title[last..index], false)] else []) + FromMatch(title[index..], needles, fold)
  {
    var rest := title[last..];
    assert rest[index - last..] == title[index..];
    assert rest[..index - last] == title[last..index];
  }

  /** From a match to the end of it. */
  lemma OverTheMatch(title: string, index: nat, needles: seq<string>, fold: char -> char)
    requires AllWords(needles)
    requires index < |title| && FirstMatch(title[index..], needles, fold) != None
    ensures var n := FirstMatch(title[index..], needles, fold).value;
      && index + n <= |title|
      && FromMatch(title[index..], needles, fold)
         == [Part(title[index..index + n], true)] + Parts(title[index + n..], needles, fold)
  {
    var rest, n := title[index..], FirstMatch(title[index..], needles, fold).value;
    assert rest[..n] == title[index..index + n];
    assert rest[n..] == title[index + n..];
  }

  /** What the loop knows: the next match is at `index`, and what was pushed lacks only what is to come. */
  ghost predicate SoFar(title: string, last: nat, index: nat, done: seq<Part>, needles: seq<string>, fold: char -> char)
    requires AllWords(needles)
  {
    && last <= index <= |title| && index == last + Gap(title[last..], needles, fold)
    && done + Parts(title[last..], needles, fold) == Parts(title, needles, fold)
  }

  function Pushed(title: string, last: nat, index: nat, done: seq<Part>): seq<Part>
    requires last <= index <= |title|
  {
    if index > last then done + [Part(title[last..index], false)] else done
  }

  /** Pushing what stands before the match. */
  lemma UpToHere(title: string, last: nat, index: nat, done: seq<Part>, needles: seq<string>, fold: char -> char)
    requires AllWords(needles) && SoFar(title, last, index, done, needles, fold)
    ensures index < |title| ==> FirstMatch(title[index..], needles, fold) != None
    ensures Pushed(title, last, index, done) + FromMatch(title[index..], needles, fold) == Parts(title, needles, fold)
  {
    UpToTheMatch(title, last, index, needles, fold);
    Regroup(done, if index > last then [Part(title[last..index], false)] else [], FromMatch(title[index..], needles, fold));
  }

  /** One round of the loop. */
  lemma RoundKeeps(title: string, last: nat, index: nat, done: seq<Part>, needles: seq<string>, fold: char -> char)
    requires AllWords(needles) && SoFar(title, last, index, done, needles, fold) && index < |title|
    ensures FirstMatch(title[index..], needles, fold) != None
    ensures var n := FirstMatch(title[index..], needles, fold).value;
      && index + n <= |title|
      && SoFar(title, index + n, index + n + Gap(title[index + n..], needles, fold),
               Pushed(title, last, index, done) + [Part(title[index..index + n], true)], needles, fold)
  {
    UpToHere(title, last, index, done, needles, fold);
    OverTheMatch(title, index, needles, fold);
    var n := FirstMatch(title[index..], needles, fold).value;
    Regroup(Pushed(title, last, index, done), [Part(title[index..index + n], true)], Parts(title[index + n..], needles, fold));
  }

  lemma LastRound(title: string, last: nat, done: seq<Part>, needles: seq<string>, fold: char -> char)
    requires AllWords(needles) && SoFar(title, last, |title|, done, needles, fold)
    ensures Pushed(title, last, |title|, done) == Parts(title, needles, fold)
  {
    UpToHere(title, last, |title|, done, needles, fold);
  }

  /** The function as the code runs it. */
  method SplitHighlight(title: string, terms: seq<string>, fold: char -> char) returns (parts: seq<Part>)
    ensures parts == Highlighted(title, terms, fold)
  {
    var needles := Needles(terms);
    if |needles| == 0 {
      return [Part(title, false)];
    }
    parts := PartsByMatches(title, needles, fold);
    if |parts| == 0 {
      parts := [Part(title, false)];
    }
    SomePart(title, needles, fold);
  }

  /** The loop over the matches. */
  method PartsByMatches(title: string, needles: seq<string>, fold: char -> char) returns (parts: seq<Part>)
    requires AllWords(needles)
    ensures parts == Parts(title, needles, fold)
  {
    parts := [];
    var last: nat := 0;
    var index: nat := Gap(title, needles, fold);
    FirstRound(title, needles, fold);
    while index < |title|
      invariant SoFar(title, last, index, parts, needles, fold)
      decreases |title| - last
    {
      RoundKeeps(title, last, index, parts, needles, fold);
      if index > last {
        parts := parts + [Part(title[last..index], false)];
      }
      var n := FirstMatch(title[index..], needles, fold).value;
      parts := parts + [Part(title[index..index + n], true)];
      last := index + n;
      index := last + Gap(title[last..], needles, fold);
    }
    LastRound(title, last, parts, needles, fold);
    if last < |title| {
      assert title[last..] == title[last..|title|];
      parts := parts + [Part(title[last..], false)];
    }
  }

  lemma FirstRound(title: string, needles: seq<string>, fold: char -> char)
    requires AllWords(needles)
    ensures SoFar(title, 0, Gap(title, needles, fold), [], needles, fold)
  {
    assert title[0..] == title;
    assert [] + Parts(title, needles, fold) == Parts(title, needles, fold);
  }

  /** Only the empty title has no parts. */
  lemma SomePart(s: string, needles: seq<string>, fold: char -> char)
    requires AllWords(needles)
    ensures Parts(s, needles, fold) == [] <==> s == ""
  {
  }

  // ---- what the parts are, without the recursion

  function Texts(parts: seq<Part>): string {
    if parts == [] then [] else parts[0].text + Texts(parts[1..])
  }

  /** Where part `k` starts in the title. */
  function Offset(parts: seq<Part>, k: nat): nat
    requires k <= |parts|
  {
    if k == 0 then 0 else |parts[0].text| + Offset(parts[1..], k - 1)
  }

  /** No needle occurs at any of the first `g` places of `s`. */
  ghost predicate Unmatched(s: string, g: nat, needles: seq<string>, fold: char -> char)
    requires g <= |s|
  {
    forall p, i :: 0 <= p < g && 0 <= i < |needles| ==> !Occurs(s[p..], needles[i], fold)
  }

  /**
   The promises, place by place: the texts make up the title and none is empty, a matched part is
   the first needle of the list that occurs where it stands, no needle occurs at any place inside
   an unmatched part, and two unmatched parts never stand side by side.
   */
  ghost predicate Describes(parts: seq<Part>, title: string, needles: seq<string>, fold: char -> char)
    requires AllWords(needles)
  {
    && Texts(parts) == title
    && (forall k :: 0 <= k < |parts| ==>
          && parts[k].text != ""
          && Offset(parts, k) + |parts[k].text| <= |title|
          && (if parts[k].matched
              then FirstMatch(title[Offset(parts, k)..], needles, fold) == Some(|parts[k].text|)
              else Unmatched(title[Offset(parts, k)..], |parts[k].text|, needles, fold)))
    && (forall k :: 0 < k < |parts| ==> parts[k - 1].matched || parts[k].matched)
  }

  lemma DescribesLonger(first: Part, parts: seq<Part>, title: string, needles: seq<string>, fold: char -> char)
    requires AllWords(needles)
    requires Describes(parts, title, needles, fold) && first.text != ""
    requires if first.matched then FirstMatch(first.text + title, needles, fold) == Some(|first.text|)
             else Unmatched(first.text + title, |first.text|, needles, fold)
    requires parts != [] ==> first.matched || parts[0].matched
    ensures Describes([first] + parts, first.text + title, needles, fold)
  {
    var longer, whole := [first] + parts, first.text + title;
    assert longer[1..] == parts;
    assert whole[0..] == whole;
    forall k | 1 <= k < |longer|
      ensures Offset(longer, k) == |first.text| + Offset(parts, k - 1)
      ensures whole[Offset(longer, k)..] == title[Offset(parts, k - 1)..]
    {
      assert longer[k] == parts[k - 1];
    }
  }

  /** What the splitter answers is described by the promises above. */
  lemma {:induction false} PartsCover(s: string, needles: seq<string>, fold: char -> char)
    requires AllWords(needles)
    ensures Describes(Parts(s, needles, fold), s, needles, fold)
    ensures s != "" ==> Parts(s, needles, fold) != []
    decreases |s|, 1
  {
    var g := Gap(s, needles, fold);
    FromMatchCovers(s[g..], needles, fold);
    assert s[..g] + s[g..] == s;
    if g > 0 {
      GapIsUnmatched(s, needles, fold);
      DescribesLonger(Part(s[..g], false), FromMatch(s[g..], needles, fold), s[g..], needles, fold);
    } else {
      assert [] + FromMatch(s[g..], needles, fold) == FromMatch(s[g..], needles, fold);
    }
  }

  lemma {:induction false} FromMatchCovers(s: string, needles: seq<string>, fold: char -> char)
    requires AllWords(needles)
    requires s != "" ==> FirstMatch(s, needles, fold) != None
    ensures Describes(FromMatch(s, needles, fold), s, needles, fold)
    ensures s != "" ==> FromMatch(s, needles, fold) != [] && FromMatch(s, needles, fold)[0].matched
    decreases |s|, 0
  {
    if s != "" {
      var n := FirstMatch(s, needles, fold).value;
      PartsCover(s[n..], needles, fold);
      assert s[..n] + s[n..] == s;
      DescribesLonger(Part(s[..n], true), Parts(s[n..], needles, fold), s[n..], needles, fold);
    }
  }

  lemma {:induction false} GapIsUnmatched(s: string, needles: seq<string>, fold: char -> char)
    requires AllWords(needles)
    ensures Unmatched(s, Gap(s, needles, fold), needles, fold)
  {
    if s != "" && FirstMatch(s, needles, fold) == None {
      GapIsUnmatched(s[1..], needles, fold);
      NoMatchMeansNoNeedle(s, needles, fold);
      assert s[0..] == s;
      assert forall p :: 1 <= p <= |s| ==> s[p..] == s[1..][p - 1..];
    }
  }

  /** A stretch without any match, with a match or the end behind it, is exactly the gap. */
  lemma GapIsThis(s: string, g: nat, needles: seq<string>, fold: char -> char)
    requires AllWords(needles)
    requires g <= |s| && Unmatched(s, g, needles, fold)
    requires g < |s| ==> FirstMatch(s[g..], needles, fold) != None
    ensures Gap(s, needles, fold) == g
  {
    GapIsUnmatched(s, needles, fold);
    var h := Gap(s, needles, fold);
    NoMatchMeansNoNeedle(s[g..], needles, fold);
    NoMatchMeansNoNeedle(s[h..], needles, fold);
  }

  /** A description without its first part describes what is left of the title. */
  lemma DescribesShorter(parts: seq<Part>, title: string, needles: seq<string>, fold: char -> char)
    requires AllWords(needles)
    requires parts != [] && Describes(parts, title, needles, fold)
    ensures |parts[0].text| <= |title| && title[..|parts[0].text|] == parts[0].text
    ensures Describes(parts[1..], title[|parts[0].text|..], needles, fold)
  {
    var n, rest := |parts[0].text|, parts[1..];
    forall k | 0 <= k < |rest|
      ensures rest[k] == parts[k + 1]
      ensures Offset(parts, k + 1) == n + Offset(rest, k)
      ensures title[Offset(parts, k + 1)..] == title[n..][Offset(rest, k)..]
    {
    }
  }

  /** What a description must begin with: nothing, the first match, or the gap before it. */
  lemma FirstPartIsForced(parts: seq<Part>, title: string, needles: seq<string>, fold: char -> char)
    requires AllWords(needles) && parts != [] && Describes(parts, title, needles, fold)
    ensures var n := |parts[0].text|;
      && n <= |title| && title[..n] == parts[0].text
      && Gap(title, needles, fold) == (if parts[0].matched then 0 else n)
      && (parts[0].matched ==> FirstMatch(title, needles, fold) == Some(n))
  {
    DescribesShorter(parts, title, needles, fold);
    assert title[0..] == title;
    var n := |parts[0].text|;
    if parts[0].matched {
      GapIsThis(title, 0, needles, fold);
    } else {
      if |parts| > 1 {
        assert Offset(parts, 1) == n;
        assert parts[1].matched;
      }
      GapIsThis(title, n, needles, fold);
    }
  }

  /** What the splitter makes of a title begins like that. */
  lemma PartsBeginSo(s: string, first: Part, needles: seq<string>, fold: char -> char)
    requires AllWords(needles) && first.text != "" && first.text <= s
    requires Gap(s, needles, fold) == if first.matched then 0 else |first.text|
    requires first.matched ==> FirstMatch(s, needles, fold) == Some(|first.text|)
    ensures Parts(s, needles, fold) == [first] + Parts(s[|first.text|..], needles, fold)
  {
    assert s[..|first.text|] == first.text;
    if first.matched {
      assert s[0..] == s;
      assert FromMatch(s, needles, fold) == [first] + Parts(s[|first.text|..], needles, fold);
    } else {
      FirstIsTheGap(s, |first.text|, needles, fold);
    }
  }

  /**
   The promises determine the answer: a list of parts keeps them exactly when it is the one the
   splitter makes.
   */
  lemma {:induction false} OnlyOneDescription(parts: seq<Part>, title: string, needles: seq<string>, fold: char -> char)
    requires AllWords(needles)
    ensures Describes(parts, title, needles, fold) <==> parts == Parts(title, needles, fold)
    decreases |title|
  {
    PartsCover(title, needles, fold);
    if Describes(parts, title, needles, fold) && parts != [] {
      DescribesShorter(parts, title, needles, fold);
      OnlyOneDescription(parts[1..], title[|parts[0].text|..], needles, fold);
      FirstPartIsForced(parts, title, needles, fold);
      PartsBeginSo(title, parts[0], needles, fold);
      assert parts == [parts[0]] + parts[1..];
    }
  }

  /** Cutting the unmatched start off a title leaves the other parts. */
  lemma FirstIsTheGap(s: string, g: nat, needles: seq<string>, fold: char -> char)
    requires AllWords(needles)
    requires 0 < g == Gap(s, needles, fold)
    ensures Parts(s, needles, fold) == [Part(s[..g], false)] + Parts(s[g..], needles, fold)
  {
    var rest := s[g..];
    assert rest[0..] == rest;
    GapIsThis(rest, 0, needles, fold);
  }

  predicate IsATerm(text: string, needles: seq<string>, fold: char -> char) {
    exists i :: 0 <= i < |needles| && SameText(text, needles[i], fold)
  }

  /**
   The answer in a reader's terms: the texts make up the title whatever the terms are, and every
   matched part is one of the terms, trimmed, up to case.
   */
  lemma HighlightedKeepsTheTitle(title: string, terms: seq<string>, fold: char -> char)
    ensures Texts(Highlighted(title, terms, fold)) == title
    ensures forall part :: part in Highlighted(title, terms, fold) && part.matched ==>
      IsATerm(part.text, Needles(terms), fold)
    ensures Needles(terms) != [] && title != "" ==>
      Describes(Highlighted(title, terms, fold), title, Needles(terms), fold)
  {
    var needles, parts := Needles(terms), Highlighted(title, terms, fold);
    if needles != [] && title != "" {
      PartsCover(title, needles, fold);
      forall k | 0 <= k < |parts| && parts[k].matched
        ensures IsATerm(parts[k].text, needles, fold)
      {
        TextStands(parts, k);
        var here := title[Offset(parts, k)..];
        var i := MatchIsTheFirstNeedle(here, needles, fold);
        assert Texts(parts) == title && parts[k].text == here[..|needles[i]|];
        assert SameText(parts[k].text, needles[i], fold);
      }
    } else {
      assert Texts([Part(title, false)]) == title + Texts([]);
    }
  }

  /** A part's text stands at the part's offset. */
  lemma {:induction false} TextStands(parts: seq<Part>, k: nat)
    requires k < |parts|
    ensures Offset(parts, k) + |parts[k].text| <= |Texts(parts)|
    ensures Texts(parts)[Offset(parts, k)..][..|parts[k].text|] == parts[k].text
  {
    if k > 0 {
      TextStands(parts[1..], k - 1);
      assert Texts(parts)[|parts[0].text|..] == Texts(parts[1..]);
      assert Texts(parts)[Offset(parts, k)..] == Texts(parts[1..])[Offset(parts[1..], k - 1)..];
    }
  }
}
