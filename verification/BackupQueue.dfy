/**
 The list of due schedules: that there always is one, when it names a schedule for certain, and how
 twenty schedules whose attempts fail keep one that is due off the list for ever.
 */
module BackupQueue {
  import opened Options
  import opened BackupSchedules
  import Lists

  function DueAt(s: State): ScheduleId -> int {
    id => if id in s.schedules && s.schedules[id].next.Some? then s.schedules[id].next.value.at else 0
  }

  function AllDue(s: State, now: int): set<ScheduleId> {
    set id | id in s.schedules && IsDue(s, id, now)
  }

  /** The others that are due no later. */
  function DueNoLater(s: State, now: int, id: ScheduleId): set<ScheduleId> {
    set other | other in AllDue(s, now) && other != id && DueAt(s)(other) <= DueAt(s)(id)
  }

  function Listing(s: State, q: seq<ScheduleId>): (due: seq<Due>)
    requires forall i :: 0 <= i < |q| ==> q[i] in s.schedules && s.schedules[q[i]].next.Some?
    ensures |due| == |q| && forall i :: 0 <= i < |q| ==>
      due[i] == Due(q[i], s.schedules[q[i]].next.value, s.schedules[q[i]].fields.scopes)
  {
    seq(|q|, i requires 0 <= i < |q| => Due(q[i], s.schedules[q[i]].next.value, s.schedules[q[i]].fields.scopes))
  }

  /** The first twenty of what is due, in the order of their next runs, are a due read. */
  lemma EarliestAreListed(s: State, now: int, q: seq<ScheduleId>)
    requires now <= s.clock && Lists.IsEarliest(AllDue(s, now), DueAt(s), DUE_LIMIT, q)
    ensures forall i :: 0 <= i < |q| ==> q[i] in s.schedules && s.schedules[q[i]].next.Some?
    ensures IsDueRead(s, now, Listing(s, q))
  {
    assert forall i :: 0 <= i < |q| ==> q[i] in AllDue(s, now);
    var due := Listing(s, q);
    assert forall i :: 0 <= i < |q| ==> due[i].slot.at == DueAt(s)(q[i]);
    forall id | id in s.schedules && IsDue(s, id, now) && !Names(due, id)
      ensures |due| == DUE_LIMIT && forall k :: 0 <= k < |due| ==> due[k].slot.at <= s.schedules[id].next.value.at
    {
      assert id !in q by {
        assert forall i :: 0 <= i < |q| ==> due[i].id == q[i];
      }
      assert forall i :: 0 <= i < |q| ==> DueAt(s)(q[i]) <= DueAt(s)(id);
    }
  }

  /** The query always has an answer. */
  lemma DueReadExists(s: State, now: int)
    requires now <= s.clock
    ensures exists due :: IsDueRead(s, now, due)
  {
    var q := Lists.EarliestExists(AllDue(s, now), DueAt(s), DUE_LIMIT);
    EarliestAreListed(s, now, q);
  }

  // ---- when a schedule is on the list

  function IdsOf(due: seq<Due>): set<ScheduleId> {
    set k | 0 <= k < |due| :: due[k].id
  }

  lemma {:induction false} AsManyIds(due: seq<Due>)
    requires forall i, k :: 0 <= i < k < |due| ==> due[i].id != due[k].id
    ensures |IdsOf(due)| == |due|
  {
    if due != [] {
      var front := due[..|due| - 1];
      AsManyIds(front);
      assert IdsOf(due) == IdsOf(front) + {due[|due| - 1].id};
    }
  }

  /** A list that leaves out what is due names twenty others that are due no later. */
  lemma LeftOutBehindTwenty(s: State, now: int, due: seq<Due>, id: ScheduleId)
    requires IsDueRead(s, now, due) && id in s.schedules && IsDue(s, id, now) && !Names(due, id)
    ensures |DueNoLater(s, now, id)| >= DUE_LIMIT
  {
    AsManyIds(due);
    forall k | 0 <= k < |due|
      ensures due[k].id in DueNoLater(s, now, id)
    {
      assert IsDue(s, due[k].id, now) && due[k].slot.at <= s.schedules[id].next.value.at;
    }
    Lists.SubsetIsSmaller(IdsOf(due), DueNoLater(s, now, id));
  }

  /** With twenty others due no later there is a list that leaves a schedule out. */
  lemma TwentyLeaveOut(s: State, now: int, id: ScheduleId) returns (due: seq<Due>)
    requires now <= s.clock && id in s.schedules && IsDue(s, id, now)
    requires |DueNoLater(s, now, id)| >= DUE_LIMIT
    ensures IsDueRead(s, now, due) && !Names(due, id)
  {
    var at, ahead := DueAt(s), DueNoLater(s, now, id);
    var q := Lists.EarliestExists(AllDue(s, now) - {id}, at, DUE_LIMIT);
    FirstTwentyAreAhead(s, now, id, q);
    forall j | j in AllDue(s, now) && j !in q
      ensures |q| == DUE_LIMIT && forall i :: 0 <= i < |q| ==> at(q[i]) <= at(j)
    {
      assert j != id ==> j in AllDue(s, now) - {id};
    }
    assert Lists.IsEarliest(AllDue(s, now), at, DUE_LIMIT, q);
    EarliestAreListed(s, now, q);
    due := Listing(s, q);
    assert forall i :: 0 <= i < |q| ==> due[i].id == q[i] != id;
  }

  lemma FirstTwentyAreAhead(s: State, now: int, id: ScheduleId, q: seq<ScheduleId>)
    requires |DueNoLater(s, now, id)| >= DUE_LIMIT
    requires Lists.IsEarliest(AllDue(s, now) - {id}, DueAt(s), DUE_LIMIT, q)
    ensures |q| == DUE_LIMIT && forall i :: 0 <= i < |q| ==> DueAt(s)(q[i]) <= DueAt(s)(id)
  {
    var at, ahead := DueAt(s), DueNoLater(s, now, id);
    var members := set i | 0 <= i < |q| :: q[i];
    AtMostItsLength(q);
    if ahead <= members {
      Lists.SubsetIsSmaller(ahead, members);
      if j :| 0 <= j < |q| && at(q[j]) > at(id) {
        assert q[j] !in ahead && q[j] in members;
        Lists.SubsetIsSmaller(ahead + {q[j]}, members);
      }
    } else {
      var j :| j in ahead && j !in members;
      assert j in AllDue(s, now) - {id} && j !in q;
      assert forall i :: 0 <= i < |q| ==> at(q[i]) <= at(j);
    }
  }

  lemma {:induction false} AtMostItsLength(q: seq<ScheduleId>)
    ensures |set i | 0 <= i < |q| :: q[i]| <= |q|
  {
    var members := set i | 0 <= i < |q| :: q[i];
    if q == [] {
      assert members == {};
    } else {
      var front := q[..|q| - 1];
      AtMostItsLength(front);
      var before := set i | 0 <= i < |front| :: front[i];
      assert members == before + {q[|q| - 1]};
    }
  }

  /** A schedule that is due is on every list if and only if fewer than twenty others are due no later. */
  lemma CertainlyListedIff(s: State, now: int, id: ScheduleId)
    requires now <= s.clock && id in s.schedules && IsDue(s, id, now)
    ensures (forall due :: IsDueRead(s, now, due) ==> Names(due, id)) <==> |DueNoLater(s, now, id)| < DUE_LIMIT
  {
    forall due | IsDueRead(s, now, due) && !Names(due, id)
      ensures |DueNoLater(s, now, id)| >= DUE_LIMIT
    {
      LeftOutBehindTwenty(s, now, due, id);
    }
    if |DueNoLater(s, now, id)| >= DUE_LIMIT {
      var due := TwentyLeaveOut(s, now, id);
    }
  }

  // ---- starving

  predicate IsListing(a: Action) {
    a.ByWorker? && a.move.List?
  }

  function Listings(run: seq<Action>): nat {
    if run == [] then 0 else Listings(run[..|run| - 1]) + if IsListing(run[|run| - 1]) then 1 else 0
  }

  /** None of the lists read since names the schedule. */
  predicate NeverListed(run: seq<Action>, from: nat, id: ScheduleId) {
    forall k :: from <= k < |run| && IsListing(run[k]) ==> !Names(run[k].move.due, id)
  }

  /** A tick whose attempts all fail before they write anything leaves everything as it was. */
  lemma {:induction false} AllFail(run: seq<Action>, due: Due, queue: seq<Due>) returns (more: seq<Action>)
    requires Exec(run).stage == Reading(due, queue)
    ensures run <= more && Exec(more) == Exec(run).(stage := Idle)
    ensures Listings(more) == Listings(run) && forall k :: |run| <= k < |more| ==> !IsListing(more[k])
    decreases |queue|
  {
    var one := run + [ByWorker(Fault(false))];
    assert one[..|run|] == run;
    more := one;
    if queue != [] {
      more := AllFail(one, queue[0], queue[1..]);
    }
  }

  lemma OneTickWithout(run: seq<Action>, id: ScheduleId) returns (more: seq<Action>)
    requires var s := Exec(run);
      s.stage == Idle && id in s.schedules && IsDue(s, id, s.clock) && |DueNoLater(s, s.clock, id)| >= DUE_LIMIT
    ensures run <= more && Exec(more) == Exec(run)
    ensures Listings(more) == Listings(run) + 1 && NeverListed(more, |run|, id)
  {
    var s := Exec(run);
    var due := TwentyLeaveOut(s, s.clock, id);
    var listed := run + [ByWorker(List(s.clock, due))];
    assert listed[..|run|] == run;
    assert due != [];
    assert Exec(listed) == s.(stage := Reading(due[0], due[1..]));
    more := AllFail(listed, due[0], due[1..]);
    assert more[|run|] == listed[|run|];
  }

  /**
   So where twenty others are due no later and their attempts fail, a due schedule can be left out for
   any number of ticks: each lists twenty others, and leaves everything as it was.
   */
  lemma {:induction false} TwentyFailuresStarve(run: seq<Action>, id: ScheduleId, ticks: nat) returns (more: seq<Action>)
    requires var s := Exec(run);
      s.stage == Idle && id in s.schedules && IsDue(s, id, s.clock) && |DueNoLater(s, s.clock, id)| >= DUE_LIMIT
    ensures run <= more && Exec(more) == Exec(run)
    ensures Listings(more) == Listings(run) + ticks && NeverListed(more, |run|, id)
    decreases ticks
  {
    more := run;
    if ticks > 0 {
      var next := OneTickWithout(run, id);
      more := TwentyFailuresStarve(next, id, ticks - 1);
      assert forall k :: 0 <= k < |next| ==> more[k] == next[k];
    }
  }
}
