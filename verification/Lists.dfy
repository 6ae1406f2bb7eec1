/** Lists without repetition: the first element of every key, in the order of the list. */
module Lists {
  import opened Sequences

  predicate HasKey<T>(xs: seq<T>, key: T -> string, k: string) {
    exists i :: 0 <= i < |xs| && key(xs[i]) == k
  }

  /** The elements whose key did not appear before them. */
  function Firsts<T>(xs: seq<T>, key: T -> string): (r: seq<T>)
    ensures |r| <= |xs|
  {
    if xs == [] then []
    else
      var before, last := xs[..|xs| - 1], xs[|xs| - 1];
      if HasKey(before, key, key(last)) then Firsts(before, key) else Firsts(before, key) + [last]
  }

  function Without<T>(xs: seq<T>, key: T -> string, k: string): (r: seq<T>)
    ensures |r| <= |xs|
  {
    if xs == [] then []
    else (if key(xs[0]) == k then [] else [xs[0]]) + Without(xs[1..], key, k)
  }

  function Take<T>(xs: seq<T>, n: int): (r: seq<T>) {
    if n <= 0 then [] else if n < |xs| then xs[..n] else xs
  }

  predicate DistinctKeys<T>(xs: seq<T>, key: T -> string) {
    forall i, j :: 0 <= i < j < |xs| ==> key(xs[i]) != key(xs[j])
  }

  lemma {:induction false} FirstsAreDistinct<T>(xs: seq<T>, key: T -> string)
    ensures DistinctKeys(Firsts(xs, key), key)
    ensures forall k :: HasKey(Firsts(xs, key), key, k) <==> HasKey(xs, key, k)
  {
    if xs != [] {
      var before, last := xs[..|xs| - 1], xs[|xs| - 1];
      var firsts := Firsts(before, key);
      FirstsAreDistinct(before, key);
      forall k
        ensures HasKey(xs, key, k) <==> HasKey(before, key, k) || key(last) == k
      {
        if HasKey(before, key, k) {
          var i :| 0 <= i < |before| && key(before[i]) == k;
          assert key(xs[i]) == k;
        }
        if key(last) == k {
          assert key(xs[|xs| - 1]) == k;
        }
      }
      forall k
        ensures HasKey(firsts + [last], key, k) <==> HasKey(firsts, key, k) || key(last) == k
      {
        if HasKey(firsts, key, k) {
          var i :| 0 <= i < |firsts| && key(firsts[i]) == k;
          assert key((firsts + [last])[i]) == k;
        }
        if key(last) == k {
          assert key((firsts + [last])[|firsts|]) == k;
        }
      }
      if !HasKey(before, key, key(last)) {
        assert !HasKey(firsts, key, key(last));
      }
    }
  }

  /** Every element kept is the first one of the list with its key. */
  lemma {:induction false} FirstsAreFirst<T>(xs: seq<T>, key: T -> string, k: nat) returns (at: nat)
    requires k < |Firsts(xs, key)|
    ensures at < |xs| && Firsts(xs, key)[k] == xs[at]
    ensures forall i :: 0 <= i < at ==> key(xs[i]) != key(xs[at])
  {
    var before, last := xs[..|xs| - 1], xs[|xs| - 1];
    if k < |Firsts(before, key)| {
      at := FirstsAreFirst(before, key, k);
      assert forall i :: 0 <= i <= at ==> before[i] == xs[i];
    } else {
      at := |xs| - 1;
      assert forall i :: 0 <= i < at ==> before[i] == xs[i];
    }
  }

  lemma {:induction false} WithoutAppend<T>(xs: seq<T>, last: T, key: T -> string, k: string)
    ensures Without(xs + [last], key, k) == Without(xs, key, k) + (if key(last) == k then [] else [last])
  {
    if xs == [] {
      assert [last][1..] == [];
    } else {
      WithoutAppend(xs[1..], last, key, k);
      assert (xs + [last])[1..] == xs[1..] + [last];
      Regroup(if key(xs[0]) == k then [] else [xs[0]], Without(xs[1..], key, k), if key(last) == k then [] else [last]);
    }
  }

  /** Putting an element in front keeps it, and drops the others with its key. */
  lemma {:induction false} FirstsCons<T>(x: T, xs: seq<T>, key: T -> string)
    ensures Firsts([x] + xs, key) == [x] + Without(Firsts(xs, key), key, key(x))
  {
    if xs == [] {
      var none: seq<T> := [];
      assert [x] + xs == [x] && [x][..0] == none;
      assert !HasKey(none, key, key(x));
    } else {
      var before, last := xs[..|xs| - 1], xs[|xs| - 1];
      FirstsCons(x, before, key);
      assert ([x] + xs)[..|xs|] == [x] + before;
      HasKeyCons(x, before, key, key(last));
      WithoutAppend(Firsts(before, key), last, key, key(x));
    }
  }

  lemma HasKeyCons<T>(x: T, xs: seq<T>, key: T -> string, k: string)
    ensures HasKey([x] + xs, key, k) <==> key(x) == k || HasKey(xs, key, k)
  {
    if key(x) == k {
      assert key(([x] + xs)[0]) == k;
    }
    if HasKey(xs, key, k) {
      var i :| 0 <= i < |xs| && key(xs[i]) == k;
      assert key(([x] + xs)[i + 1]) == k;
    }
  }

  lemma HasKeyAppend<T>(xs: seq<T>, x: T, key: T -> string, k: string)
    ensures HasKey(xs + [x], key, k) <==> HasKey(xs, key, k) || key(x) == k
  {
    if key(x) == k {
      assert key((xs + [x])[|xs|]) == k;
    }
    if HasKey(xs, key, k) {
      var i :| 0 <= i < |xs| && key(xs[i]) == k;
      assert key((xs + [x])[i]) == k;
    }
  }

  /** The next element of the list either repeats a key or is added at the end. */
  lemma FirstsAppend<T>(xs: seq<T>, x: T, key: T -> string)
    ensures Firsts(xs + [x], key)
      == if HasKey(xs, key, key(x)) then Firsts(xs, key) else Firsts(xs, key) + [x]
  {
    assert (xs + [x])[..|xs|] == xs;
  }

  lemma {:induction false} WithoutAbsent<T>(xs: seq<T>, key: T -> string, k: string)
    requires !HasKey(xs, key, k)
    ensures Without(xs, key, k) == xs
  {
    if xs != [] {
      assert xs == [xs[0]] + xs[1..];
      HasKeyCons(xs[0], xs[1..], key, k);
      WithoutAbsent(xs[1..], key, k);
    }
  }

  /** Among distinct keys, the first one's is in no other entry. */
  lemma OnlyTheFirst<T>(xs: seq<T>, key: T -> string, n: nat)
    requires xs != [] && DistinctKeys(xs, key)
    ensures Without(xs[1..], key, key(xs[0])) == xs[1..]
    ensures Without(Take(xs[1..], n), key, key(xs[0])) == Take(xs[1..], n)
  {
    var rest := xs[1..];
    assert forall i :: 0 <= i < |rest| ==> rest[i] == xs[i + 1];
    WithoutAbsent(rest, key, key(xs[0]));
    WithoutAbsent(Take(rest, n), key, key(xs[0]));
  }

  /** Without a key, the first entries are those of a list cut one later. */
  lemma {:induction false} WithoutThenTake<T>(xs: seq<T>, key: T -> string, k: string, n: nat)
    requires DistinctKeys(xs, key)
    ensures Take(Without(Take(xs, n + 1), key, k), n) == Take(Without(xs, key, k), n)
  {
    if xs != [] {
      var rest := xs[1..];
      assert Take(xs, n + 1) == [xs[0]] + Take(rest, n);
      assert Take(xs, n + 1)[1..] == Take(rest, n);
      if key(xs[0]) == k {
        OnlyTheFirst(xs, key, n);
      } else if n > 0 {
        WithoutThenTake(rest, key, k, n - 1);
        TakeCons(xs[0], Without(rest, key, k), n);
        TakeCons(xs[0], Without(Take(rest, n), key, k), n);
      }
    }
  }

  lemma TakeCons<T>(x: T, xs: seq<T>, n: nat)
    requires n > 0
    ensures Take([x] + xs, n) == [x] + Take(xs, n - 1)
  {
  }

  /** A bounded list that is cut after every step is the first part of the one that is never cut. */
  lemma BoundedListIsAPrefix<T>(x: T, xs: seq<T>, key: T -> string, n: nat)
    requires n > 0
    ensures Take([x] + Without(Take(Firsts(xs, key), n), key, key(x)), n) == Take(Firsts([x] + xs, key), n)
  {
    FirstsAreDistinct(xs, key);
    FirstsCons(x, xs, key);
    OneStepBounded(x, Firsts(xs, key), key, n);
  }

  lemma OneStepBounded<T>(x: T, xs: seq<T>, key: T -> string, n: nat)
    requires n > 0 && DistinctKeys(xs, key)
    ensures Take([x] + Without(Take(xs, n), key, key(x)), n) == Take([x] + Without(xs, key, key(x)), n)
  {
    WithoutThenTake(xs, key, key(x), n - 1);
    TakeCons(x, Without(Take(xs, n), key, key(x)), n);
    TakeCons(x, Without(xs, key, key(x)), n);
  }

  function Filter<T>(xs: seq<T>, keep: T -> bool): (r: seq<T>)
    ensures forall k :: 0 <= k < |r| ==> keep(r[k])
  {
    if xs == [] then []
    else (if keep(xs[0]) then [xs[0]] else []) + Filter(xs[1..], keep)
  }

  lemma {:induction false} FilterKeepsAll<T>(xs: seq<T>, keep: T -> bool)
    requires forall k :: 0 <= k < |xs| ==> keep(xs[k])
    ensures Filter(xs, keep) == xs
  {
    if xs != [] {
      FilterKeepsAll(xs[1..], keep);
    }
  }

  lemma {:induction false} WithoutIsAPart<T>(xs: seq<T>, key: T -> string, k: string, keep: T -> bool)
    requires forall i :: 0 <= i < |xs| ==> keep(xs[i])
    ensures forall i :: 0 <= i < |Without(xs, key, k)| ==> keep(Without(xs, key, k)[i])
  {
    if xs != [] {
      WithoutIsAPart(xs[1..], key, k, keep);
    }
  }

  /** A history, newest first, on top of what was there before. */
  function NewestFirst<T>(history: seq<T>, before: seq<T>): seq<T> {
    if history == [] then before
    else [history[|history| - 1]] + NewestFirst(history[..|history| - 1], before)
  }

  lemma NewestFirstAppend<T>(history: seq<T>, last: T, before: seq<T>)
    ensures NewestFirst(history + [last], before) == [last] + NewestFirst(history, before)
  {
    assert (history + [last])[..|history|] == history;
  }

  lemma {:induction false} DistinctAreFirsts<T>(xs: seq<T>, key: T -> string)
    requires DistinctKeys(xs, key)
    ensures Firsts(xs, key) == xs
  {
    if xs != [] {
      DistinctAreFirsts(xs[..|xs| - 1], key);
    }
  }

  lemma {:induction false} FirstsOfFront<T>(front: seq<T>, more: seq<T>, key: T -> string)
    ensures Firsts(front, key) <= Firsts(front + more, key)
  {
    if more == [] {
      assert front + more == front;
    } else {
      FirstsOfFront(front, more[..|more| - 1], key);
      assert (front + more)[..|front + more| - 1] == front + more[..|more| - 1];
    }
  }

  lemma {:induction false} FilterAppend<T>(xs: seq<T>, x: T, keep: T -> bool)
    ensures Filter(xs + [x], keep) == Filter(xs, keep) + (if keep(x) then [x] else [])
  {
    if xs == [] {
      assert [x][1..] == [] && xs + [x] == [x];
    } else {
      FilterAppend(xs[1..], x, keep);
      assert (xs + [x])[1..] == xs[1..] + [x];
      Regroup(if keep(xs[0]) then [xs[0]] else [], Filter(xs[1..], keep), if keep(x) then [x] else []);
    }
  }

  function Drop<T>(xs: seq<T>, k: nat): seq<T>
    requires k < |xs|
  {
    xs[..k] + xs[k + 1..]
  }

  lemma DropOne<T>(xs: seq<T>, k: nat)
    requires k < |xs|
    ensures multiset(Drop(xs, k)) == multiset(xs) - multiset{xs[k]}
  {
    assert xs == xs[..k] + [xs[k]] + xs[k + 1..];
  }

  lemma KeptDropOne<T>(xs: seq<T>, k: nat, keep: T -> bool)
    requires k < |xs|
    ensures |Filter(xs, keep)| == |Filter(Drop(xs, k), keep)| + (if keep(xs[k]) then 1 else 0)
  {
    var a, b := xs[..k], xs[k + 1..];
    FilterConcat(a, [xs[k]] + b, keep);
    FilterConcat(a, b, keep);
    assert a + ([xs[k]] + b) == xs && ([xs[k]] + b)[1..] == b;
  }

  /** How many elements are kept does not depend on their order. */
  lemma {:induction false} SamePart<T>(xs: seq<T>, ys: seq<T>, keep: T -> bool)
    requires multiset(xs) == multiset(ys)
    ensures |Filter(xs, keep)| == |Filter(ys, keep)|
    decreases |xs|
  {
    if xs == [] {
      assert |ys| == |multiset(ys)| == |multiset(xs)| == 0;
    } else {
      assert xs[0] in multiset(ys);
      var k :| 0 <= k < |ys| && ys[k] == xs[0];
      DropOne(xs, 0);
      DropOne(ys, k);
      KeptDropOne(xs, 0, keep);
      KeptDropOne(ys, k, keep);
      SamePart(Drop(xs, 0), Drop(ys, k), keep);
    }
  }

  lemma {:induction false} FilterConcat<T>(xs: seq<T>, ys: seq<T>, keep: T -> bool)
    ensures Filter(xs + ys, keep) == Filter(xs, keep) + Filter(ys, keep)
  {
    if xs == [] {
      assert xs + ys == ys;
    } else {
      FilterConcat(xs[1..], ys, keep);
      assert (xs + ys)[1..] == xs[1..] + ys;
      Regroup(if keep(xs[0]) then [xs[0]] else [], Filter(xs[1..], keep), Filter(ys, keep));
    }
  }

  lemma SubsetIsSmaller<T>(a: set<T>, b: set<T>)
    requires a <= b
    ensures |a| <= |b|
  {
    assert b == a + (b - a);
  }

  // ---- what `order by … limit n` answers

  /** The first `n` members in the order of `at`. */
  ghost predicate IsEarliest<T(!new)>(ids: set<T>, at: T -> int, n: nat, q: seq<T>) {
    && |q| <= n
    && (forall i :: 0 <= i < |q| ==> q[i] in ids)
    && (forall i, k :: 0 <= i < k < |q| ==> q[i] != q[k] && at(q[i]) <= at(q[k]))
    && (forall j :: j in ids && j !in q ==> |q| == n && forall i :: 0 <= i < |q| ==> at(q[i]) <= at(j))
  }

  lemma EarliestOne<T>(ids: set<T>, at: T -> int) returns (first: T)
    requires ids != {}
    ensures first in ids && forall j :: j in ids ==> at(first) <= at(j)
  {
    first :| first in ids;
    if ids != {first} {
      var other := EarliestOne(ids - {first}, at);
      if at(other) < at(first) {
        first := other;
      }
    }
  }

  /** There always is such an answer. */
  lemma EarliestExists<T(!new)>(ids: set<T>, at: T -> int, n: nat) returns (q: seq<T>)
    ensures IsEarliest(ids, at, n, q)
  {
    q := [];
    if n > 0 && ids != {} {
      var first := EarliestOne(ids, at);
      var rest := EarliestExists(ids - {first}, at, n - 1);
      q := [first] + rest;
      forall j | j in ids && j !in q
        ensures |q| == n && forall i :: 0 <= i < |q| ==> at(q[i]) <= at(j)
      {
        assert q[0] == first && j != first && j !in rest by {
          assert forall i :: 0 <= i < |rest| ==> rest[i] == q[i + 1];
        }
      }
    }
  }
}
