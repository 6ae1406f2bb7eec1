/**
 The two lists the palette keeps in the browser: the screens it visited, and the recent searches it
 hides. Every read goes through the stored text, which may be missing or may not be what was written.
 */
module RecentMemory {
  import opened Options
  import opened Text
  import opened Lists
  import opened Sequences

  const RECENT_VIEWS_LIMIT: nat := 5
  const HIDDEN_LIMIT: nat := 50

  datatype View = View(path: string, text: string, at: nat)

  /** What stands in the storage: nothing, no list, or a list with entries of any shape. */
  datatype Stored<T> = Absent | Unreadable | Rows(rows: seq<Option<T>>)

  function Shaped<T>(rows: seq<Option<T>>): seq<T> {
    if rows == [] then []
    else (if rows[0].Some? then [rows[0].value] else []) + Shaped(rows[1..])
  }

  function Entries<T>(stored: Stored<T>): seq<T> {
    if stored.Rows? then Shaped(stored.rows) else []
  }

  predicate HasText(row: string) {
    Trim(row) != ""
  }

  function AsStored<T>(rows: seq<T>): Stored<T> {
    Rows(seq(|rows|, k requires 0 <= k < |rows| => Some(rows[k])))
  }

  lemma {:induction false} StoredIsReadBack<T>(rows: seq<T>)
    ensures Entries(AsStored(rows)) == rows
  {
    if rows != [] {
      StoredIsReadBack(rows[1..]);
      assert AsStored(rows).rows[1..] == AsStored(rows[1..]).rows;
    }
  }

  function PathOf(view: View): string {
    view.path
  }

  function Itself(query: string): string {
    query
  }

  /** A visit as it is remembered: blank paths are not, and a blank label is the path. */
  function Remembered(visit: View): Option<View> {
    var path := Trim(visit.path);
    if path == "" then None
    else Some(View(path, if Trim(visit.text) == "" then path else Trim(visit.text), visit.at))
  }

  /** The list as it stands is the bounded part of its whole history, if it started without repeats. */
  ghost predicate Bounded<T(!new)>(rows: seq<T>, history: seq<T>, before: seq<T>, key: T -> string, n: nat) {
    DistinctKeys(before, key) && |before| <= n ==> rows == Take(Firsts(NewestFirst(history, before), key), n)
  }

  class Memory {
    var views: Stored<View>
    var hidden: Stored<string>
    /** Every visit remembered and every query hidden, oldest first, and what the storage held before. */
    ghost var visits: seq<View>
    ghost var hides: seq<string>
    ghost var viewsBefore: seq<View>
    ghost var hiddenBefore: seq<string>

    ghost predicate Valid()
      reads this
    {
      && Bounded(Take(Entries(views), RECENT_VIEWS_LIMIT), visits, viewsBefore, PathOf, RECENT_VIEWS_LIMIT)
      && Bounded(Filter(Entries(hidden), HasText), hides, hiddenBefore, Itself, HIDDEN_LIMIT)
    }

    /** Whatever the storage holds; a list the palette wrote itself names no screen twice. */
    constructor (views: Stored<View>, hidden: Stored<string>)
      ensures Valid() && this.views == views && this.hidden == hidden
      ensures visits == [] && hides == []
      ensures viewsBefore == Take(Entries(views), RECENT_VIEWS_LIMIT) && hiddenBefore == Filter(Entries(hidden), HasText)
    {
      this.views := views;
      this.hidden := hidden;
      visits := [];
      hides := [];
      viewsBefore := Take(Entries(views), RECENT_VIEWS_LIMIT);
      hiddenBefore := Filter(Entries(hidden), HasText);
      new;
      if DistinctKeys(viewsBefore, PathOf) {
        DistinctAreFirsts(viewsBefore, PathOf);
      }
      if DistinctKeys(hiddenBefore, Itself) {
        DistinctAreFirsts(hiddenBefore, Itself);
      }
    }

    method ReadRecentViews() returns (rows: seq<View>)
      requires Valid()
      ensures rows == Take(Entries(views), RECENT_VIEWS_LIMIT)
      ensures Bounded(rows, visits, viewsBefore, PathOf, RECENT_VIEWS_LIMIT)
    {
      rows := Take(Entries(views), RECENT_VIEWS_LIMIT);
    }

    method PushRecentView(visit: View)
      requires Valid()
      modifies this
      ensures Valid()
      ensures visits == old(visits) + (if Remembered(visit).Some? then [Remembered(visit).value] else [])
      ensures viewsBefore == old(viewsBefore) && hiddenBefore == old(hiddenBefore)
      ensures hides == old(hides) && hidden == old(hidden)
    {
      var path := Trim(visit.path);
      if path == "" {
        return;
      }
      var text := if Trim(visit.text) == "" then path else Trim(visit.text);
      var rows := Without(Take(Entries(views), RECENT_VIEWS_LIMIT), PathOf, path);
      var row := View(path, text, visit.at);
      rows := [row] + rows;
      OneStep(row, views, visits, viewsBefore, PathOf, RECENT_VIEWS_LIMIT);
      views := AsStored(Take(rows, RECENT_VIEWS_LIMIT));
      visits := visits + [row];
    }

    method ReadHiddenRecents() returns (rows: seq<string>)
      requires Valid()
      ensures rows == Filter(Entries(hidden), HasText)
      ensures Bounded(rows, hides, hiddenBefore, Itself, HIDDEN_LIMIT)
    {
      rows := Filter(Entries(hidden), HasText);
    }

    method HideRecentSearch(query: string) returns (rows: seq<string>)
      requires Valid()
      modifies this
      ensures Valid()
      ensures hides == old(hides) + (if HasText(query) then [Trim(query)] else [])
      ensures viewsBefore == old(viewsBefore) && hiddenBefore == old(hiddenBefore)
      ensures visits == old(visits) && views == old(views)
      ensures rows == Filter(Entries(hidden), HasText)
    {
      var value := Trim(query);
      rows := Filter(Entries(hidden), HasText);
      if value == "" {
        return;
      }
      assert HasText(value) by {
        TrimIsIdempotent(query);
      }
      OneHiding(value, rows, hides, hiddenBefore, HasText);
      rows := Take([value] + Without(rows, Itself, value), HIDDEN_LIMIT);
      hidden := AsStored(rows);
      hides := hides + [value];
    }

    method ForgetHiddenRecents()
      requires Valid()
      modifies this
      ensures Valid()
      ensures hides == [] && hiddenBefore == [] && Filter(Entries(hidden), HasText) == []
      ensures visits == old(visits) && viewsBefore == old(viewsBefore) && views == old(views)
    {
      hidden := AsStored([]);
      hides := [];
      hiddenBefore := [];
    }
  }

  /** Remembering one more, bounded, is the bounded part of remembering everything. */
  lemma OneStep<T(!new)>(row: T, stored: Stored<T>, history: seq<T>, before: seq<T>, key: T -> string, n: nat)
    requires n > 0
    ensures var rows := Take([row] + Without(Take(Entries(stored), n), key, key(row)), n);
      && Take(Entries(AsStored(rows)), n) == rows
      && (Bounded(Take(Entries(stored), n), history, before, key, n) ==>
            Bounded(rows, history + [row], before, key, n))
  {
    StoredIsReadBack(Take([row] + Without(Take(Entries(stored), n), key, key(row)), n));
    NewestFirstAppend(history, row, before);
    BoundedListIsAPrefix(row, NewestFirst(history, before), key, n);
  }

  lemma OneHiding(value: string, rows: seq<string>, history: seq<string>, before: seq<string>, hasText: string -> bool)
    requires hasText(value) && forall k :: 0 <= k < |rows| ==> hasText(rows[k])
    ensures var next := Take([value] + Without(rows, Itself, value), HIDDEN_LIMIT);
      && Filter(Entries(AsStored(next)), hasText) == next
      && (Bounded(rows, history, before, Itself, HIDDEN_LIMIT) ==>
            Bounded(next, history + [value], before, Itself, HIDDEN_LIMIT))
  {
    var next := Take([value] + Without(rows, Itself, value), HIDDEN_LIMIT);
    WithoutIsAPart(rows, Itself, value, hasText);
    StoredIsReadBack(next);
    FilterKeepsAll(next, hasText);
    NewestFirstAppend(history, value, before);
    BoundedListIsAPrefix(value, NewestFirst(history, before), Itself, HIDDEN_LIMIT);
  }

  // ---- what the bounded list means

  /**
   What is shown of a screen is its latest visit: every entry of the bounded list is a remembered
   one, and nothing newer in the history has its key.
   */
  lemma TheLatestIsShown<T(!new)>(rows: seq<T>, history: seq<T>, before: seq<T>, key: T -> string, n: nat, k: nat)
    returns (at: nat)
    requires DistinctKeys(before, key) && |before| <= n && Bounded(rows, history, before, key, n) && k < |rows|
    ensures var all := NewestFirst(history, before);
      at < |all| && rows[k] == all[at] && forall i :: 0 <= i < at ==> key(all[i]) != key(rows[k])
  {
    at := FirstsAreFirst(NewestFirst(history, before), key, k);
  }

  /** The items remembered after the last time this one was, newest first. */
  function Since(history: seq<string>, item: string): seq<string> {
    if history == [] || history[|history| - 1] == item then []
    else [history[|history| - 1]] + Since(history[..|history| - 1], item)
  }

  /** The history, newest first, around the last time the item was remembered. */
  lemma {:induction false} SinceIsInFront(history: seq<string>, item: string) returns (older: seq<string>)
    ensures item !in Since(history, item)
    ensures item !in history ==> item !in NewestFirst(history, [])
    ensures item in history ==> NewestFirst(history, []) == Since(history, item) + ([item] + older)
  {
    older := [];
    if history != [] {
      var last, rest := history[|history| - 1], history[..|history| - 1];
      assert history == rest + [last];
      if last == item {
        older := NewestFirst(rest, []);
        assert NewestFirst(history, []) == [] + ([item] + older);
      } else {
        older := SinceIsInFront(rest, item);
        Regroup([last], Since(rest, item), [item] + older);
      }
    }
  }

  /**
   What the limit costs: starting from nothing, an item that was remembered is forgotten exactly
   when at least as many different others as the list holds were remembered after it.
   */
  lemma RememberedUntilTheListIsFull(history: seq<string>, item: string, limit: nat)
    ensures item in Take(Firsts(NewestFirst(history, []), Itself), limit)
      <==> item in history && |Firsts(Since(history, item), Itself)| < limit
  {
    var all, since := NewestFirst(history, []), Since(history, item);
    var older := SinceIsInFront(history, item);
    if item in history {
      PlaceOfItem(since, item, older);
    } else {
      FirstsAreDistinct(all, Itself);
      assert forall k :: 0 <= k < |all| ==> Itself(all[k]) != item;
      assert !HasKey(all, Itself, item);
      assert forall k :: 0 <= k < |Firsts(all, Itself)| ==> Itself(Firsts(all, Itself)[k]) != item;
    }
  }

  /** Where an item stands: behind the different ones in front of it, and nowhere else. */
  lemma PlaceOfItem(since: seq<string>, item: string, older: seq<string>)
    requires item !in since
    ensures var firsts, at := Firsts(since + ([item] + older), Itself), |Firsts(since, Itself)|;
      at < |firsts| && firsts[at] == item && forall k :: 0 <= k < |firsts| && k != at ==> firsts[k] != item
  {
    var all := since + ([item] + older);
    var firsts, at := Firsts(all, Itself), |Firsts(since, Itself)|;
    assert all == (since + [item]) + older;
    FirstsOfFront(since + [item], older, Itself);
    FirstsAppend(since, item, Itself);
    assert forall k :: 0 <= k < |since| ==> Itself(since[k]) != item;
    assert firsts[at] == item;
    FirstsAreDistinct(all, Itself);
    forall k | 0 <= k < |firsts| && k != at
      ensures firsts[k] != item
    {
      assert if k < at then Itself(firsts[k]) != Itself(firsts[at]) else Itself(firsts[at]) != Itself(firsts[k]);
    }
  }
}
