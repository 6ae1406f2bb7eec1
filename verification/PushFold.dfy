/**
 One notification to every registered browser of a reader, folded into one outcome. What a push
 service answers for an expired subscription is section 7.3 of RFC 8030; 404 and 410 both count as gone.
 */
module PushFold {
  import opened Options
  import opened Lists

  datatype Target = Target(id: nat, endpoint: string)

  datatype Sent = Answered(code: int) | Unreachable(error: string)

  /** A device, and what happens when it is tried: a key that may not decode, an endpoint that may not be one. */
  datatype Device = Device(target: Target, keyError: Option<string>, authorized: bool, sent: Sent)

  datatype Pruned = Pruned(id: nat, endpoint: string, status: int)

  /** The sentences of a failure, by what they say. */
  datatype Reason =
    | NoDevices | NotConfigured | NotEncoded(error: string)
    | BadKey(error: string) | NotAUrl | NotReached(error: string)
    | WasRemoved(code: int) | DidAnswer(code: int) | NobodyReached

  datatype TransportOutcome =
    | Accepted(status: Option<int>, pruned: seq<Pruned>)
    | Failed(status: Option<int>, reason: Reason, pruned: seq<Pruned>)

  predicate IsSuccess(code: int) {
    200 <= code <= 299
  }

  /** The answer a device gave, when it was asked at all. */
  function StatusOf(d: Device): Option<int> {
    if d.keyError == None && d.authorized && d.sent.Answered? then Some(d.sent.code) else None
  }

  predicate Took(d: Device) {
    StatusOf(d).Some? && IsSuccess(StatusOf(d).value)
  }

  predicate IsGone(d: Device) {
    StatusOf(d) == Some(404) || StatusOf(d) == Some(410)
  }

  function AsPruned(d: Device): Pruned
    requires IsGone(d)
  {
    Pruned(d.target.id, d.target.endpoint, StatusOf(d).value)
  }

  /** Why a device did not take it. */
  function ReasonOf(d: Device): Option<Reason> {
    if d.keyError.Some? then Some(BadKey(d.keyError.value))
    else if !d.authorized then Some(NotAUrl)
    else match d.sent
      case Unreachable(error) => Some(NotReached(error))
      case Answered(code) =>
        if IsSuccess(code) then None
        else if code == 404 || code == 410 then Some(WasRemoved(code))
        else Some(DidAnswer(code))
  }

  // ---- what the outcome is of, for a list of devices

  predicate AnyTook(devices: seq<Device>) {
    exists k :: 0 <= k < |devices| && Took(devices[k])
  }

  function Gone(devices: seq<Device>): seq<Pruned> {
    if devices == [] then []
    else
      var last := devices[|devices| - 1];
      Gone(devices[..|devices| - 1]) + (if IsGone(last) then [AsPruned(last)] else [])
  }

  /** `r` is the answer of the last device that answered, or nothing when none did. */
  ghost predicate IsLastStatus(devices: seq<Device>, r: Option<int>) {
    match r
    case None => forall k :: 0 <= k < |devices| ==> StatusOf(devices[k]) == None
    case Some(_) =>
      exists k :: (0 <= k < |devices| && StatusOf(devices[k]) == r
        && forall j :: k < j < |devices| ==> StatusOf(devices[j]) == None)
  }

  /** `r` is the reason of the first device that had one, or nothing when none did. */
  ghost predicate IsFirstReason(devices: seq<Device>, r: Option<Reason>) {
    match r
    case None => forall k :: 0 <= k < |devices| ==> ReasonOf(devices[k]) == None
    case Some(_) =>
      exists k :: (0 <= k < |devices| && ReasonOf(devices[k]) == r
        && forall j :: 0 <= j < k ==> ReasonOf(devices[j]) == None)
  }

  /** Keeping the first one. */
  function OrElse(value: Option<Reason>, other: Reason): Option<Reason> {
    if value.Some? then value else Some(other)
  }

  /** The installation may have no key pair, and the payload may not encode. */
  method DeliverAll(devices: seq<Device>, configured: bool, encodeError: Option<string>)
    returns (outcome: TransportOutcome)
    ensures devices != [] && configured && encodeError == None ==>
      && (outcome.Accepted? <==> AnyTook(devices))
      && outcome.pruned == Gone(devices)
      && IsLastStatus(devices, outcome.status)
      && (outcome.Failed? ==> IsFirstReason(devices, Some(outcome.reason)))
    ensures devices == [] || !configured || encodeError != None ==>
      outcome.Failed? && outcome.status == None && outcome.pruned == []
  {
    if devices == [] {
      return Failed(None, NoDevices, []);
    }
    if !configured {
      return Failed(None, NotConfigured, []);
    }
    if encodeError.Some? {
      return Failed(None, NotEncoded(encodeError.value), []);
    }
    var delivered, gone, lastStatus, lastReason := TryAll(devices);
    if delivered > 0 {
      return Accepted(lastStatus, gone);
    }
    NobodyTookItForAReason(devices, lastReason);
    outcome := Failed(lastStatus, if lastReason.Some? then lastReason.value else NobodyReached, gone);
  }

  /** Every device once, in order. */
  method TryAll(devices: seq<Device>)
    returns (delivered: nat, gone: seq<Pruned>, lastStatus: Option<int>, lastReason: Option<Reason>)
    ensures delivered > 0 <==> AnyTook(devices)
    ensures gone == Gone(devices)
    ensures IsLastStatus(devices, lastStatus)
    ensures IsFirstReason(devices, lastReason)
  {
    delivered, gone, lastStatus, lastReason := 0, [], None, None;
    assert devices[..0] == [];
    for i := 0 to |devices|
      invariant IsFold(devices[..i], delivered, gone, lastStatus, lastReason)
    {
      var d := devices[i];
      assert devices[..i + 1] == devices[..i] + [d];
      OneMore(devices[..i], d, delivered, gone, lastStatus, lastReason);
      if d.keyError.Some? {
        lastReason := OrElse(lastReason, BadKey(d.keyError.value));
        continue;
      }
      if !d.authorized {
        lastReason := OrElse(lastReason, NotAUrl);
        continue;
      }
      match d.sent {
        case Answered(code) =>
          lastStatus := Some(code);
          if IsSuccess(code) {
            delivered := delivered + 1;
          } else if code == 404 || code == 410 {
            gone := gone + [Pruned(d.target.id, d.target.endpoint, code)];
            lastReason := OrElse(lastReason, WasRemoved(code));
          } else {
            lastReason := OrElse(lastReason, DidAnswer(code));
          }
        case Unreachable(error) =>
          lastReason := OrElse(lastReason, NotReached(error));
      }
    }
    assert devices[..|devices|] == devices;
  }

  /** What the variables of the loop say about the devices tried so far. */
  ghost predicate IsFold(devices: seq<Device>, delivered: nat, gone: seq<Pruned>, status: Option<int>, reason: Option<Reason>) {
    && (delivered > 0 <==> AnyTook(devices))
    && gone == Gone(devices)
    && IsLastStatus(devices, status)
    && IsFirstReason(devices, reason)
  }

  lemma OneMore(before: seq<Device>, d: Device, delivered: nat, gone: seq<Pruned>, status: Option<int>, reason: Option<Reason>)
    requires IsFold(before, delivered, gone, status, reason)
    ensures IsFold(before + [d],
      if Took(d) then delivered + 1 else delivered,
      if IsGone(d) then gone + [AsPruned(d)] else gone,
      if StatusOf(d).Some? then StatusOf(d) else status,
      if reason.Some? then reason else ReasonOf(d))
  {
    OneMoreTook(before, d);
    OneMoreGone(before, d);
    OneMoreStatus(before, d, status);
    OneMoreReason(before, d, reason);
  }

  lemma OneMoreTook(before: seq<Device>, d: Device)
    ensures AnyTook(before + [d]) <==> AnyTook(before) || Took(d)
  {
    var after := before + [d];
    assert after[|before|] == d && forall k :: 0 <= k < |before| ==> after[k] == before[k];
  }

  lemma OneMoreGone(before: seq<Device>, d: Device)
    ensures Gone(before + [d]) == Gone(before) + (if IsGone(d) then [AsPruned(d)] else [])
  {
    assert (before + [d])[..|before|] == before;
  }

  lemma OneMoreStatus(before: seq<Device>, d: Device, status: Option<int>)
    requires IsLastStatus(before, status)
    ensures IsLastStatus(before + [d], if StatusOf(d).Some? then StatusOf(d) else status)
  {
    var after := before + [d];
    assert after[|before|] == d && forall k :: 0 <= k < |before| ==> after[k] == before[k];
  }

  lemma OneMoreReason(before: seq<Device>, d: Device, reason: Option<Reason>)
    requires IsFirstReason(before, reason)
    ensures IsFirstReason(before + [d], if reason.Some? then reason else ReasonOf(d))
  {
    var after := before + [d];
    assert after[|before|] == d && forall k :: 0 <= k < |before| ==> after[k] == before[k];
  }

  /** The closing sentence of the code is never used: a device that did not take it has a reason. */
  lemma NobodyTookItForAReason(devices: seq<Device>, reason: Option<Reason>)
    requires devices != [] && IsFirstReason(devices, reason)
    ensures !AnyTook(devices) ==> reason.Some?
  {
    assert forall d: Device :: Took(d) <==> ReasonOf(d) == None;
    assert reason == None ==> Took(devices[0]);
  }

  // ---- order, and what the status means

  lemma OneMoreCounted(gone: seq<Pruned>, d: Device, p: Pruned)
    ensures multiset(gone + (if IsGone(d) then [AsPruned(d)] else []))[p]
      == multiset(gone)[p] + (if IsGone(d) && AsPruned(d) == p then 1 else 0)
  {
  }

  lemma {:induction false} CountGone(devices: seq<Device>, p: Pruned)
    ensures multiset(Gone(devices))[p] == |Filter(devices, (d: Device) => IsGone(d) && AsPruned(d) == p)|
  {
    var keep := (d: Device) => IsGone(d) && AsPruned(d) == p;
    if devices != [] {
      var before, last := devices[..|devices| - 1], devices[|devices| - 1];
      CountGone(before, p);
      assert before + [last] == devices;
      FilterAppend(before, last, keep);
      OneMoreGone(before, last);
      OneMoreCounted(Gone(before), last, p);
    }
  }

  /** The verdict and what is pruned do not depend on the order in which the devices are tried. */
  lemma OrderDoesNotMatter(devices: seq<Device>, others: seq<Device>)
    requires multiset(devices) == multiset(others)
    ensures AnyTook(devices) <==> AnyTook(others)
    ensures multiset(Gone(devices)) == multiset(Gone(others))
  {
    assert forall d :: d in devices <==> d in multiset(devices);
    assert forall d :: d in others <==> d in multiset(others);
    if AnyTook(devices) {
      var k :| 0 <= k < |devices| && Took(devices[k]);
      assert devices[k] in others;
    }
    if AnyTook(others) {
      var k :| 0 <= k < |others| && Took(others[k]);
      assert others[k] in devices;
    }
    forall p
      ensures multiset(Gone(devices))[p] == multiset(Gone(others))[p]
    {
      var keep := (d: Device) => IsGone(d) && AsPruned(d) == p;
      CountGone(devices, p);
      CountGone(others, p);
      SamePart(devices, others, keep);
    }
  }

  /**
   The status of an accepted delivery is meant to be what the receiver answered. It is the answer of
   the last device that gave one, so it is a success exactly when that device took it.
   */
  lemma AcceptedStatusMayBeARefusal(devices: seq<Device>, last: nat, status: Option<int>)
    requires last < |devices| && StatusOf(devices[last]).Some? && IsLastStatus(devices, status)
    requires forall j :: last < j < |devices| ==> StatusOf(devices[j]) == None
    ensures status.Some? && (IsSuccess(status.value) <==> Took(devices[last]))
  {
  }

  /** A phone took it and a laptop behind it answered 404: accepted, with status 404. */
  lemma AcceptedWithARefusal(phone: Target, laptop: Target)
    ensures var devices := [Device(phone, None, true, Answered(201)), Device(laptop, None, true, Answered(404))];
      && AnyTook(devices) && IsLastStatus(devices, Some(404)) && !IsSuccess(404)
      && Gone(devices) == [Pruned(laptop.id, laptop.endpoint, 404)]
  {
    var a, b := Device(phone, None, true, Answered(201)), Device(laptop, None, true, Answered(404));
    var devices := [a, b];
    assert Took(devices[0]) && StatusOf(devices[1]) == Some(404);
    assert devices[..1] == [a] && [a][..0] == [];
    assert Gone([a]) == [];
  }
}
