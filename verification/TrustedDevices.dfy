/** Trusted devices: derived from pairing and revocation audit events, deduplicated, and merged into an authority. */
module TrustedDevices {
  import opened Text
  import opened StableSort

  datatype Device = Device(id: string, publicKey: string)

  /** The fields of an audit event that matter; a field of another type than string counts as absent. */
  datatype Event = Event(
    action: Option<string>,
    installation: Option<string>,
    client: Option<string>,
    createdAt: Option<string>,
    publicKey: Option<string>)
  {
    function At(): string { if createdAt.Some? then createdAt.value else "" }
  }

  predicate AcceptsPairing(action: Option<string>)
  {
    action in [Some("remoteRuntime.pairing.accepted"), Some("client.pairing.accepted"), Some("mobile.pairing.accepted")]
  }

  predicate Accepted(e: Event, installation: string)
  {
    AcceptsPairing(e.action) && e.installation == Some(installation) && e.client.Some? && !Blank(e.client.value)
  }

  predicate Revocation(e: Event, installation: string)
  {
    e.action == Some("remoteRuntime.device.revoked") && e.installation == Some(installation) && e.client.Some?
  }

  predicate HasKey(e: Event) { e.publicKey.Some? && !Blank(e.publicKey.value) }

  /** How `<=` compares strings: a total order whose least element is the empty string. */
  ghost predicate StringOrder(le: (string, string) -> bool)
  {
    TotalPreorder(le) && (forall a, b :: le(a, b) && le(b, a) ==> a == b) && forall a :: le("", a)
  }

  /** The text holds something besides white space. */
  ghost predicate Filled(text: Option<string>)
  {
    text.Some? && exists i :: 0 <= i < |text.value| && !Whitespace(text.value[i])
  }

  lemma FilledIsNotBlank(text: string)
    ensures Filled(Some(text)) <==> !Blank(text)
  {
    if !Blank(text) {
      var c :| c in text && !Whitespace(c);
      var i :| 0 <= i < |text| && text[i] == c;
    }
    if Filled(Some(text)) {
      var i :| 0 <= i < |text| && !Whitespace(text[i]);
      assert text[i] in text;
    }
  }

  /** A pairing counts under one of three action names, for its own installation, and with a client id to speak of. */
  lemma AcceptedIs(e: Event, installation: string)
    ensures Accepted(e, installation) <==>
      (e.action == Some("remoteRuntime.pairing.accepted") || e.action == Some("client.pairing.accepted") ||
       e.action == Some("mobile.pairing.accepted")) &&
      e.installation == Some(installation) && Filled(e.client)
    ensures HasKey(e) <==> Filled(e.publicKey)
  {
    if e.client.Some? {
      FilledIsNotBlank(e.client.value);
    }
    if e.publicKey.Some? {
      FilledIsNotBlank(e.publicKey.value);
    }
  }

  predicate Revokes(r: Event, installation: string, client: Option<string>)
  {
    r.action == Some("remoteRuntime.device.revoked") && r.installation == Some(installation) && r.client == client
  }

  /** A missing time is the earliest of all. */
  function TimeOf(createdAt: Option<string>): string
  {
    match createdAt
    case None => ""
    case Some(time) => time
  }

  /** Everything a trusted device needs, in terms of the events alone. */
  lemma EligibleIs(events: seq<Event>, installation: string, le: (string, string) -> bool, e: Event)
    ensures Eligible(events, installation, le, e) <==>
      (e.action == Some("remoteRuntime.pairing.accepted") || e.action == Some("client.pairing.accepted") ||
       e.action == Some("mobile.pairing.accepted")) &&
      e.installation == Some(installation) && Filled(e.client) && Filled(e.publicKey) &&
      forall r :: r in events && Revokes(r, installation, e.client) ==> !le(TimeOf(e.createdAt), TimeOf(r.createdAt))
  {
    AcceptedIs(e, installation);
  }

  // ---------------------------------------------------------------- first one wins

  /** The devices whose id is new, in order. */
  function FirstWins(devices: seq<Device>, seen: set<string>): seq<Device>
  {
    if devices == [] then []
    else if devices[0].id in seen then FirstWins(devices[1..], seen)
    else [devices[0]] + FirstWins(devices[1..], seen + {devices[0].id})
  }

  ghost predicate DistinctIds(devices: seq<Device>)
  {
    forall i, j :: 0 <= i < j < |devices| ==> devices[i].id != devices[j].id
  }

  /** The first device with an id. */
  function FirstWith(devices: seq<Device>, id: string): Option<Device>
  {
    if devices == [] then None
    else if devices[0].id == id then Some(devices[0])
    else FirstWith(devices[1..], id)
  }

  lemma {:induction false} FirstWinsMembers(devices: seq<Device>, seen: set<string>)
    ensures DistinctIds(FirstWins(devices, seen))
    ensures forall d :: d in FirstWins(devices, seen) <==> d.id !in seen && FirstWith(devices, d.id) == Some(d)
  {
    if devices != [] {
      var rest := devices[1..];
      FirstWinsMembers(rest, seen);
      FirstWinsMembers(rest, seen + {devices[0].id});
    }
  }

  /** A list without repeated or seen ids is kept as it is. */
  lemma {:induction false} FirstWinsKeeps(devices: seq<Device>, seen: set<string>)
    requires DistinctIds(devices) && forall d :: d in devices ==> d.id !in seen
    ensures FirstWins(devices, seen) == devices
  {
    if devices != [] {
      FirstWinsKeeps(devices[1..], seen + {devices[0].id});
    }
  }

  /** A device whose id came earlier, or was seen, changes nothing at the end of the list. */
  lemma {:induction false} LateRepeatIsDropped(devices: seq<Device>, late: Device, seen: set<string>)
    requires late.id in seen || exists d :: d in devices && d.id == late.id
    ensures FirstWins(devices + [late], seen) == FirstWins(devices, seen)
  {
    if devices == [] {
      assert (devices + [late])[1..] == [];
    } else {
      assert (devices + [late])[1..] == devices[1..] + [late];
      LateRepeatIsDropped(devices[1..], late, if devices[0].id in seen then seen else seen + {devices[0].id});
    }
  }

  // ---------------------------------------------------------------- deriving devices from events

  /** Some revocation of the event's device is at least as new as the event. */
  ghost predicate Revoked(events: seq<Event>, installation: string, le: (string, string) -> bool, e: Event)
  {
    exists r :: r in events && Revocation(r, installation) && r.client == e.client && le(e.At(), r.At())
  }

  /** An accepted pairing with a key, strictly newer than every revocation of its device. */
  ghost predicate Eligible(events: seq<Event>, installation: string, le: (string, string) -> bool, e: Event)
  {
    Accepted(e, installation) && HasKey(e) && !Revoked(events, installation, le, e)
  }

  ghost function Eligibles(events: seq<Event>, installation: string, le: (string, string) -> bool): Event -> bool
  {
    e => Eligible(events, installation, le, e)
  }

  function AcceptedOnly(events: seq<Event>, installation: string): seq<Event>
  {
    if events == [] then []
    else
      var last := events[|events| - 1];
      AcceptedOnly(events[..|events| - 1], installation) + if Accepted(last, installation) then [last] else []
  }

  /** Sorting puts newer events first; `collates(a, b)` is `a.localeCompare(b) <= 0`. */
  function NewerFirst(collates: (string, string) -> bool): (Event, Event) -> bool
  {
    (a: Event, b: Event) => collates(b.At(), a.At())
  }

  function DeviceOf(e: Event): Device
  {
    Device(if e.client.Some? then e.client.value else "", if e.publicKey.Some? then e.publicKey.value else "")
  }

  ghost function Candidates(sorted: seq<Event>, eligible: Event -> bool): seq<Device>
  {
    if sorted == [] then []
    else (if eligible(sorted[0]) then [DeviceOf(sorted[0])] else []) + Candidates(sorted[1..], eligible)
  }

  ghost function Trusted(events: seq<Event>, installation: string, le: (string, string) -> bool,
                         collates: (string, string) -> bool): seq<Device>
  {
    FirstWins(Candidates(Sort(AcceptedOnly(events, installation), NewerFirst(collates)),
                         Eligibles(events, installation, le)), {})
  }

  /** `latest` holds, for each device with a revocation among `events`, the newest one's time. */
  ghost predicate LatestRevocations(latest: map<string, string>, events: seq<Event>, installation: string,
                                    le: (string, string) -> bool)
  {
    (forall r :: r in events && Revocation(r, installation) ==>
      r.client.value in latest && le(r.At(), latest[r.client.value])) &&
    (forall id :: id in latest ==>
      exists r :: r in events && Revocation(r, installation) && r.client == Some(id) && r.At() == latest[id])
  }

  /** The test of the last loop. */
  predicate Passes(latest: map<string, string>, le: (string, string) -> bool, e: Event)
  {
    HasKey(e) && e.client.Some? && !(e.client.value in latest && le(e.At(), latest[e.client.value]))
  }

  lemma EligibleByLatest(latest: map<string, string>, events: seq<Event>, installation: string,
                         le: (string, string) -> bool, e: Event)
    requires StringOrder(le) && LatestRevocations(latest, events, installation, le) && Accepted(e, installation)
    ensures Eligibles(events, installation, le)(e) <==> Passes(latest, le, e)
  {
    if e.client.value in latest && le(e.At(), latest[e.client.value]) {
      var r :| r in events && Revocation(r, installation) && r.client == e.client && r.At() == latest[e.client.value];
    }
  }

  /** One turn of the first loop: a revocation at least as new as the recorded one replaces it. */
  lemma LatestStep(latest: map<string, string>, seen: seq<Event>, e: Event, installation: string,
                   le: (string, string) -> bool)
    requires StringOrder(le) && LatestRevocations(latest, seen, installation, le)
    ensures !Revocation(e, installation) ==> LatestRevocations(latest, seen + [e], installation, le)
    ensures Revocation(e, installation) ==>
      var id := e.client.value;
      var replaced := latest[id := e.At()];
      if le(if id in latest then latest[id] else "", e.At()) then LatestRevocations(replaced, seen + [e], installation, le)
      else LatestRevocations(latest, seen + [e], installation, le)
  {
    if Revocation(e, installation) && le(if e.client.value in latest then latest[e.client.value] else "", e.At()) {
      var replaced := latest[e.client.value := e.At()];
      forall id | id in replaced
        ensures exists r :: r in seen + [e] && Revocation(r, installation) && r.client == Some(id) && r.At() == replaced[id]
      {
        if id == e.client.value {
          assert e in seen + [e];
        } else {
          var r :| r in seen && Revocation(r, installation) && r.client == Some(id) && r.At() == latest[id];
          assert r in seen + [e];
        }
      }
    }
  }

  /** The first loop: the newest revocation of each device. */
  method CollectRevocations(events: seq<Event>, installation: string, le: (string, string) -> bool)
    returns (latest: map<string, string>)
    requires StringOrder(le)
    ensures LatestRevocations(latest, events, installation, le)
  {
    latest := map[];
    for i := 0 to |events|
      invariant LatestRevocations(latest, events[..i], installation, le)
    {
      var event := events[i];
      LatestStep(latest, events[..i], event, installation, le);
      assert events[..i + 1] == events[..i] + [event];
      if Revocation(event, installation) {
        var id, createdAt := event.client.value, event.At();
        var previous := if id in latest then latest[id] else "";
        if le(previous, createdAt) {
          latest := latest[id := createdAt];
        }
      }
    }
  }

  /** `remoteRuntimeTrustedDeviceAuthoritiesFromSetupAuditEvents`. */
  method TrustedFromAuditEvents(events: seq<Event>, installation: string, le: (string, string) -> bool,
                                collates: (string, string) -> bool)
    returns (devices: seq<Device>)
    requires StringOrder(le)
    ensures devices == Trusted(events, installation, le, collates)
  {
    var latest := CollectRevocations(events, installation, le);
    var sorted := Sort(AcceptedOnly(events, installation), NewerFirst(collates));
    ghost var eligible := Eligibles(events, installation, le);
    SortedAreAccepted(events, installation, NewerFirst(collates));
    forall e | e in sorted ensures eligible(e) <==> Passes(latest, le, e) {
      EligibleByLatest(latest, events, installation, le, e);
    }
    devices := EmitDevices(sorted, latest, le, eligible);
  }

  ghost function Outcome(devices: seq<Device>, sorted: seq<Event>, i: nat, eligible: Event -> bool, seen: set<string>):
    seq<Device>
    requires i <= |sorted|
  {
    devices + FirstWins(Candidates(sorted[i..], eligible), seen)
  }

  /** One turn of the last loop. */
  lemma EmitStep(devices: seq<Device>, sorted: seq<Event>, i: nat, eligible: Event -> bool, seen: set<string>)
    requires i < |sorted|
    ensures var d := DeviceOf(sorted[i]);
      Outcome(devices, sorted, i, eligible, seen) ==
      if eligible(sorted[i]) && d.id !in seen
      then Outcome(devices + [d], sorted, i + 1, eligible, seen + {d.id})
      else Outcome(devices, sorted, i + 1, eligible, seen)
  {
    var rest := Candidates(sorted[i + 1..], eligible);
    assert sorted[i..][0] == sorted[i] && sorted[i..][1..] == sorted[i + 1..];
    if eligible(sorted[i]) {
      assert ([DeviceOf(sorted[i])] + rest)[1..] == rest;
    } else {
      assert Candidates(sorted[i..], eligible) == rest;
    }
  }

  /** The last loop: each device's first eligible event gives its key. */
  method EmitDevices(sorted: seq<Event>, latest: map<string, string>, le: (string, string) -> bool, ghost eligible: Event -> bool)
    returns (devices: seq<Device>)
    requires forall e :: e in sorted ==> e.client.Some? && (eligible(e) <==> Passes(latest, le, e))
    ensures devices == FirstWins(Candidates(sorted, eligible), {})
  {
    var seen: set<string> := {};
    devices := [];
    assert sorted[0..] == sorted;
    for i := 0 to |sorted|
      invariant Outcome(devices, sorted, i, eligible, seen) == FirstWins(Candidates(sorted, eligible), {})
    {
      var event := sorted[i];
      EmitStep(devices, sorted, i, eligible, seen);
      var id := event.client.value;
      if id !in seen && !(id in latest && le(event.At(), latest[id])) && HasKey(event) {
        seen := seen + {id};
        devices := devices + [Device(id, event.publicKey.value)];
      }
    }
  }

  // ---------------------------------------------------------------- what the derivation gives

  lemma {:induction false} AcceptedAre(events: seq<Event>, installation: string)
    ensures forall e :: e in AcceptedOnly(events, installation) <==> e in events && Accepted(e, installation)
  {
    if events != [] {
      AcceptedAre(events[..|events| - 1], installation);
      assert events == events[..|events| - 1] + [events[|events| - 1]];
    }
  }

  lemma {:induction false} SortKeepsMembers(xs: seq<Event>, le: (Event, Event) -> bool)
    ensures forall e :: e in Sort(xs, le) <==> e in xs
  {
    if xs != [] {
      SortKeepsMembers(xs[..|xs| - 1], le);
      InsertMembers(Sort(xs[..|xs| - 1], le), xs[|xs| - 1], le);
      assert xs == xs[..|xs| - 1] + [xs[|xs| - 1]];
    }
  }

  lemma {:induction false} InsertMembers(sorted: seq<Event>, x: Event, le: (Event, Event) -> bool)
    ensures forall e :: e in Insert(sorted, x, le) <==> e in sorted || e == x
  {
    if sorted != [] {
      InsertMembers(sorted[..|sorted| - 1], x, le);
      assert sorted == sorted[..|sorted| - 1] + [sorted[|sorted| - 1]];
    }
  }

  lemma SortedAreAccepted(events: seq<Event>, installation: string, le: (Event, Event) -> bool)
    ensures forall e :: e in Sort(AcceptedOnly(events, installation), le) ==> Accepted(e, installation)
  {
    AcceptedAre(events, installation);
    SortKeepsMembers(AcceptedOnly(events, installation), le);
  }

  /** The first eligible event of a device. */
  ghost function FirstFor(xs: seq<Event>, eligible: Event -> bool, id: string): Option<Event>
  {
    if xs == [] then None
    else if eligible(xs[0]) && DeviceOf(xs[0]).id == id then Some(xs[0])
    else FirstFor(xs[1..], eligible, id)
  }

  lemma {:induction false} FirstCandidate(sorted: seq<Event>, eligible: Event -> bool, id: string)
    ensures FirstWith(Candidates(sorted, eligible), id) ==
      match FirstFor(sorted, eligible, id) case None => None case Some(e) => Some(DeviceOf(e))
  {
    if sorted != [] {
      FirstCandidate(sorted[1..], eligible, id);
      var rest := Candidates(sorted[1..], eligible);
      assert ([DeviceOf(sorted[0])] + rest)[1..] == rest;
      assert [] + rest == rest;
    }
  }

  lemma {:induction false} FirstForAppend(xs: seq<Event>, x: Event, eligible: Event -> bool, id: string)
    ensures FirstFor(xs + [x], eligible, id) ==
      if FirstFor(xs, eligible, id).Some? then FirstFor(xs, eligible, id)
      else if eligible(x) && DeviceOf(x).id == id then Some(x) else None
  {
    if xs == [] {
      assert (xs + [x])[0] == x;
    } else {
      assert (xs + [x])[1..] == xs[1..] + [x];
      FirstForAppend(xs[1..], x, eligible, id);
    }
  }

  lemma {:induction false} FirstForIsThere(xs: seq<Event>, eligible: Event -> bool, id: string)
    ensures FirstFor(xs, eligible, id).Some? ==> FirstFor(xs, eligible, id).value in xs
  {
    if xs != [] {
      FirstForIsThere(xs[1..], eligible, id);
    }
  }

  /** Inserting an event makes it the device's first exactly when it is strictly newer than the first so far. */
  lemma {:induction false} FirstAfterInsert(
    sorted: seq<Event>, x: Event, eligible: Event -> bool, id: string, le: (Event, Event) -> bool)
    requires TotalPreorder(le) && Sorted(sorted, le)
    ensures var first := FirstFor(sorted, eligible, id);
      FirstFor(Insert(sorted, x, le), eligible, id) ==
      if eligible(x) && DeviceOf(x).id == id && !(first.Some? && le(first.value, x)) then Some(x) else first
  {
    var first := FirstFor(sorted, eligible, id);
    FirstForIsThere(sorted, eligible, id);
    if sorted == [] {
      FirstForAppend([], x, eligible, id);
    } else {
      var init, last := sorted[..|sorted| - 1], sorted[|sorted| - 1];
      assert sorted == init + [last];
      if le(last, x) {
        FirstForAppend(sorted, x, eligible, id);
      } else {
        FirstAfterInsert(init, x, eligible, id, le);
        FirstForAppend(init, last, eligible, id);
        FirstForAppend(Insert(init, x, le), last, eligible, id);
      }
    }
  }

  /** Scanning the events once for a device's newest eligible one, the earlier of two equally new ones. */
  ghost function NewestIndex(
    events: seq<Event>, eligible: Event -> bool, id: string, le: (Event, Event) -> bool): (r: Option<nat>)
    ensures r.Some? ==> r.value < |events|
  {
    if events == [] then None
    else
      var n := |events| - 1;
      var before := NewestIndex(events[..n], eligible, id, le);
      if eligible(events[n]) && DeviceOf(events[n]).id == id && !(before.Some? && le(events[before.value], events[n]))
      then Some(n)
      else before
  }

  ghost function Newest(events: seq<Event>, eligible: Event -> bool, id: string, le: (Event, Event) -> bool): Option<Event>
  {
    var r := NewestIndex(events, eligible, id, le);
    if r.Some? then Some(events[r.value]) else None
  }

  lemma NewestStep(init: seq<Event>, x: Event, eligible: Event -> bool, id: string, le: (Event, Event) -> bool)
    ensures var before := Newest(init, eligible, id, le);
      Newest(init + [x], eligible, id, le) ==
      if eligible(x) && DeviceOf(x).id == id && !(before.Some? && le(before.value, x)) then Some(x) else before
  {
    assert (init + [x])[..|init|] == init;
  }

  lemma SortStep(init: seq<Event>, x: Event, installation: string, le: (Event, Event) -> bool)
    ensures var before := Sort(AcceptedOnly(init, installation), le);
      Sort(AcceptedOnly(init + [x], installation), le) == if Accepted(x, installation) then Insert(before, x, le) else before
  {
    var accepted := AcceptedOnly(init, installation);
    assert (init + [x])[..|init|] == init;
    assert (accepted + [x])[..|accepted|] == accepted;
    assert accepted + [] == accepted;
  }

  lemma {:induction false} SortFindsNewest(
    events: seq<Event>, installation: string, eligible: Event -> bool, id: string, le: (Event, Event) -> bool)
    requires TotalPreorder(le) && forall e :: eligible(e) ==> Accepted(e, installation)
    ensures FirstFor(Sort(AcceptedOnly(events, installation), le), eligible, id) == Newest(events, eligible, id, le)
  {
    if events != [] {
      var init, last := events[..|events| - 1], events[|events| - 1];
      assert events == init + [last];
      SortFindsNewest(init, installation, eligible, id, le);
      NewestStep(init, last, eligible, id, le);
      SortStep(init, last, installation, le);
      if Accepted(last, installation) {
        SortSorts(AcceptedOnly(init, installation), le);
        FirstAfterInsert(Sort(AcceptedOnly(init, installation), le), last, eligible, id, le);
      }
    }
  }

  ghost predicate NewestFor(
    events: seq<Event>, i: nat, eligible: Event -> bool, id: string, le: (Event, Event) -> bool)
  {
    i < |events| && eligible(events[i]) && DeviceOf(events[i]).id == id &&
    forall j :: 0 <= j < |events| && eligible(events[j]) && DeviceOf(events[j]).id == id ==>
      le(events[i], events[j]) && (le(events[j], events[i]) ==> i <= j)
  }

  lemma {:induction false} NewestIndexIsNewest(
    events: seq<Event>, eligible: Event -> bool, id: string, le: (Event, Event) -> bool)
    requires TotalPreorder(le)
    ensures var r := NewestIndex(events, eligible, id, le);
      if r.Some? then NewestFor(events, r.value, eligible, id, le)
      else forall e :: e in events ==> !(eligible(e) && DeviceOf(e).id == id)
  {
    if events != [] {
      var n := |events| - 1;
      var init := events[..n];
      assert events == init + [events[n]];
      NewestIndexIsNewest(init, eligible, id, le);
      var before, r := NewestIndex(init, eligible, id, le), NewestIndex(events, eligible, id, le);
      if r.Some? {
        forall j | 0 <= j < |events| && eligible(events[j]) && DeviceOf(events[j]).id == id
          ensures le(events[r.value], events[j]) && (le(events[j], events[r.value]) ==> r.value <= j)
        {
          if j < n {
            assert init[j] == events[j] && init[j] in init;
          }
        }
      }
    }
  }

  /** Index `i` holds the newest eligible pairing of its device; of equally new ones the first counts. */
  ghost predicate NewestPairing(events: seq<Event>, installation: string, le: (string, string) -> bool,
                                collates: (string, string) -> bool, i: nat)
  {
    i < |events| && Eligible(events, installation, le, events[i]) &&
    forall j :: 0 <= j < |events| && Eligible(events, installation, le, events[j]) && events[j].client == events[i].client ==>
      collates(events[j].At(), events[i].At()) && (collates(events[i].At(), events[j].At()) ==> i <= j)
  }

  lemma NewerFirstOrders(collates: (string, string) -> bool)
    requires TotalPreorder(collates)
    ensures TotalPreorder(NewerFirst(collates))
  {
    var le := NewerFirst(collates);
    forall a, b, c | le(a, b) && le(b, c) ensures le(a, c) {
      assert collates(b.At(), a.At()) && collates(c.At(), b.At());
    }
    forall a, b ensures le(a, b) || le(b, a) {
      assert collates(a.At(), b.At()) || collates(b.At(), a.At());
    }
  }

  lemma TrustedMember(events: seq<Event>, installation: string, le: (string, string) -> bool,
                      collates: (string, string) -> bool, id: string)
    requires TotalPreorder(collates)
    ensures var devices := Trusted(events, installation, le, collates);
      DistinctIds(devices) &&
      var r := NewestIndex(events, Eligibles(events, installation, le), id, NewerFirst(collates));
      forall d: Device :: d.id == id ==> (d in devices <==> r.Some? && d == DeviceOf(events[r.value]))
  {
    var eligible, newer := Eligibles(events, installation, le), NewerFirst(collates);
    var sorted := Sort(AcceptedOnly(events, installation), newer);
    NewerFirstOrders(collates);
    FirstWinsMembers(Candidates(sorted, eligible), {});
    FirstCandidate(sorted, eligible, id);
    SortFindsNewest(events, installation, eligible, id, newer);
  }

  /**
   * The ids are distinct; a device is trusted exactly when some accepted pairing of it with a key is strictly newer
   * than every revocation of it; and its key is that of the newest such pairing.
   */
  lemma TrustedIffNewestPairing(events: seq<Event>, installation: string, le: (string, string) -> bool,
                                collates: (string, string) -> bool)
    requires TotalPreorder(collates)
    ensures var devices := Trusted(events, installation, le, collates);
      DistinctIds(devices) &&
      (forall d :: d in devices <==>
        exists i: nat :: NewestPairing(events, installation, le, collates, i) && d == DeviceOf(events[i])) &&
      (forall e :: e in events && Eligible(events, installation, le, e) ==>
        exists d :: d in devices && Some(d.id) == e.client)
  {
    var devices := Trusted(events, installation, le, collates);
    TrustedMember(events, installation, le, collates, "");
    NewerFirstOrders(collates);
    forall d ensures d in devices <==>
      exists i: nat :: NewestPairing(events, installation, le, collates, i) && d == DeviceOf(events[i])
    {
      MemberIsNewest(events, installation, le, collates, d);
    }
    forall e | e in events && Eligible(events, installation, le, e)
      ensures exists d :: d in devices && Some(d.id) == e.client
    {
      TrustedMember(events, installation, le, collates, e.client.value);
      NewestIndexIsNewest(events, Eligibles(events, installation, le), e.client.value, NewerFirst(collates));
      var r := NewestIndex(events, Eligibles(events, installation, le), e.client.value, NewerFirst(collates));
      assert DeviceOf(events[r.value]) in devices;
    }
  }

  lemma MemberIsNewest(events: seq<Event>, installation: string, le: (string, string) -> bool,
                       collates: (string, string) -> bool, d: Device)
    requires TotalPreorder(collates)
    ensures d in Trusted(events, installation, le, collates) <==>
      exists i: nat :: NewestPairing(events, installation, le, collates, i) && d == DeviceOf(events[i])
  {
    var eligible, newer := Eligibles(events, installation, le), NewerFirst(collates);
    TrustedMember(events, installation, le, collates, d.id);
    NewerFirstOrders(collates);
    NewestIndexIsNewest(events, eligible, d.id, newer);
    var r := NewestIndex(events, eligible, d.id, newer);
    if r.Some? {
      assert NewestPairing(events, installation, le, collates, r.value);
    }
    if i: nat :| NewestPairing(events, installation, le, collates, i) && d == DeviceOf(events[i]) {
      assert events[i] in events && eligible(events[i]);
      assert collates(events[i].At(), events[r.value].At());
      assert i == r.value;
    }
  }

  lemma {:induction false} AcceptedCount(events: seq<Event>, installation: string, e: Event)
    ensures multiset(AcceptedOnly(events, installation))[e] == if Accepted(e, installation) then multiset(events)[e] else 0
  {
    if events != [] {
      assert events == events[..|events| - 1] + [events[|events| - 1]];
      AcceptedCount(events[..|events| - 1], installation, e);
    }
  }

  lemma {:induction false} SameCandidates(sorted: seq<Event>, p: Event -> bool, q: Event -> bool)
    requires forall e :: p(e) == q(e)
    ensures Candidates(sorted, p) == Candidates(sorted, q)
  {
    if sorted != [] {
      SameCandidates(sorted[1..], p, q);
    }
  }

  /** No two different accepted pairings have times that collate as equal. */
  ghost predicate NoTies(events: seq<Event>, installation: string, collates: (string, string) -> bool)
  {
    forall e, f :: e in events && f in events && Accepted(e, installation) && Accepted(f, installation) && e != f ==>
      !(collates(e.At(), f.At()) && collates(f.At(), e.At()))
  }

  /** When no two different accepted pairings are equally new, the order of the events does not matter. */
  lemma EventOrderIsIrrelevant(a: seq<Event>, b: seq<Event>, installation: string, le: (string, string) -> bool,
                               collates: (string, string) -> bool)
    requires TotalPreorder(collates) && multiset(a) == multiset(b)
    requires NoTies(a, installation, collates)
    ensures Trusted(a, installation, le, collates) == Trusted(b, installation, le, collates)
  {
    var acceptedA, acceptedB := AcceptedOnly(a, installation), AcceptedOnly(b, installation);
    forall e ensures multiset(acceptedA)[e] == multiset(acceptedB)[e] {
      AcceptedCount(a, installation, e);
      AcceptedCount(b, installation, e);
    }
    assert multiset(acceptedA) == multiset(acceptedB);
    AcceptedAre(a, installation);
    NewerFirstOrders(collates);
    SortIgnoresOrder(acceptedA, acceptedB, NewerFirst(collates));
    forall e ensures e in a <==> e in b {
      assert e in multiset(a) <==> e in multiset(b);
    }
    SameCandidates(Sort(acceptedA, NewerFirst(collates)), Eligibles(a, installation, le), Eligibles(b, installation, le));
  }

  // ---------------------------------------------------------------- deduplication and merging

  predicate Usable(d: Device) { !Blank(d.id) && !Blank(d.publicKey) }

  function UsableOnly(devices: seq<Device>): seq<Device>
  {
    if devices == [] then []
    else (if Usable(devices[0]) then [devices[0]] else []) + UsableOnly(devices[1..])
  }

  function Deduplicated(devices: seq<Device>): seq<Device>
  {
    FirstWins(UsableOnly(devices), {})
  }

  lemma DeduplicateStep(done: seq<Device>, devices: seq<Device>, i: nat, seen: set<string>)
    requires i < |devices|
    ensures var d := devices[i];
      done + FirstWins(UsableOnly(devices[i..]), seen) ==
      if Usable(d) && d.id !in seen
      then done + [d] + FirstWins(UsableOnly(devices[i + 1..]), seen + {d.id})
      else done + FirstWins(UsableOnly(devices[i + 1..]), seen)
  {
    var rest := UsableOnly(devices[i + 1..]);
    assert devices[i..][0] == devices[i] && devices[i..][1..] == devices[i + 1..];
    if Usable(devices[i]) {
      assert ([devices[i]] + rest)[1..] == rest;
    } else {
      assert UsableOnly(devices[i..]) == rest;
    }
  }

  /** `deduplicateRemoteRuntimeTrustedDeviceAuthorities`. */
  method Deduplicate(devices: seq<Device>) returns (kept: seq<Device>)
    ensures kept == Deduplicated(devices)
  {
    var seen: set<string> := {};
    kept := [];
    assert devices[0..] == devices;
    for i := 0 to |devices|
      invariant kept + FirstWins(UsableOnly(devices[i..]), seen) == Deduplicated(devices)
    {
      DeduplicateStep(kept, devices, i, seen);
      var d := devices[i];
      if Usable(d) && d.id !in seen {
        seen := seen + {d.id};
        kept := kept + [d];
      }
    }
  }

  lemma {:induction false} UsableMembers(devices: seq<Device>)
    ensures forall d :: d in UsableOnly(devices) <==> d in devices && Usable(d)
    ensures (forall d :: d in devices ==> Usable(d)) ==> UsableOnly(devices) == devices
  {
    if devices != [] {
      UsableMembers(devices[1..]);
    }
  }

  /** Index `i` is the first usable device with its id. */
  ghost predicate FirstOfItsId(devices: seq<Device>, i: nat)
  {
    i < |devices| && Usable(devices[i]) && forall j :: 0 <= j < i ==> !(Usable(devices[j]) && devices[j].id == devices[i].id)
  }

  lemma FirstOfItsIdShifts(devices: seq<Device>, i: nat)
    requires i + 1 < |devices| && !(Usable(devices[0]) && devices[0].id == devices[i + 1].id)
    ensures devices[1..][i] == devices[i + 1] && (FirstOfItsId(devices[1..], i) <==> FirstOfItsId(devices, i + 1))
  {
    var rest := devices[1..];
    assert forall j :: 0 <= j < i ==> rest[j] == devices[j + 1];
    assert forall j :: 0 < j < i + 1 ==> devices[j] == rest[j - 1];
  }

  lemma {:induction false} FirstUsable(devices: seq<Device>, d: Device)
    ensures FirstWith(UsableOnly(devices), d.id) == Some(d) <==> exists i: nat :: FirstOfItsId(devices, i) && devices[i] == d
  {
    if devices != [] {
      var rest := devices[1..];
      FirstUsable(rest, d);
      assert ([devices[0]] + UsableOnly(rest))[1..] == UsableOnly(rest);
      assert [] + UsableOnly(rest) == UsableOnly(rest);
      if Usable(devices[0]) && devices[0].id == d.id {
        assert FirstOfItsId(devices, 0);
        if i: nat :| FirstOfItsId(devices, i) && devices[i] == d {
          assert i == 0;
        }
      } else {
        if i: nat :| FirstOfItsId(rest, i) && rest[i] == d {
          FirstOfItsIdShifts(devices, i);
        }
        if i: nat :| FirstOfItsId(devices, i) && devices[i] == d {
          FirstOfItsIdShifts(devices, i - 1);
        }
      }
    }
  }

  /** Ids end up distinct, and a device is kept exactly when it is usable and no usable one before it has its id. */
  lemma DeduplicatedMembers(devices: seq<Device>)
    ensures DistinctIds(Deduplicated(devices))
    ensures forall d :: d in Deduplicated(devices) <==> exists i: nat :: FirstOfItsId(devices, i) && devices[i] == d
  {
    FirstWinsMembers(UsableOnly(devices), {});
    forall d: Device
      ensures d in Deduplicated(devices) <==> exists i: nat :: FirstOfItsId(devices, i) && devices[i] == d
    {
      FirstUsable(devices, d);
    }
  }

  /** A gateway authority: its primary device and its list of trusted ones. */
  datatype Authority = Authority(primary: Device, trusted: seq<Device>)

  /** `mergeRemoteRuntimeLocalGatewayTrustedDeviceAuthorities`. */
  function Merge(authority: Authority, additional: seq<Device>): Authority
  {
    var trusted := Deduplicated(additional + authority.trusted + [authority.primary]);
    Authority(if trusted != [] then trusted[0] else authority.primary, trusted)
  }

  function Ids(devices: seq<Device>): set<string>
  {
    set d | d in devices :: d.id
  }

  lemma {:induction false} FirstWinsSplits(a: seq<Device>, b: seq<Device>, seen: set<string>)
    ensures FirstWins(a + b, seen) == FirstWins(a, seen) + FirstWins(b, seen + Ids(a))
  {
    if a == [] {
      EmptyAppend(b);
      assert seen + Ids(a) == seen;
    } else {
      var tail := if a[0].id in seen then seen else seen + {a[0].id};
      assert (a + b)[1..] == a[1..] + b && (a + b)[0] == a[0];
      FirstWinsSplits(a[1..], b, tail);
      assert a == [a[0]] + a[1..];
      assert tail + Ids(a[1..]) == seen + Ids(a);
    }
  }

  lemma {:induction false} AllSeenAreDropped(devices: seq<Device>, seen: set<string>)
    requires Ids(devices) <= seen
    ensures FirstWins(devices, seen) == []
  {
    if devices != [] {
      assert devices[0] in devices;
      AllSeenAreDropped(devices[1..], seen);
    }
  }

  /** Putting a list in front of what first-wins made of it and more changes nothing. */
  lemma FirstWinsAgain(a: seq<Device>, b: seq<Device>)
    ensures FirstWins(a + FirstWins(a + b, {}), {}) == FirstWins(a + b, {})
  {
    var first, more := FirstWins(a, {}), FirstWins(b, Ids(a));
    FirstWinsSplits(a, b, {});
    assert {} + Ids(a) == Ids(a);
    FirstWinsSplits(a, first + more, {});
    FirstWinsMembers(a, {});
    FirstIsThere(a);
    FirstWinsSplits(first, more, Ids(a));
    AllSeenAreDropped(first, Ids(a));
    FirstWinsMembers(b, Ids(a));
    assert Ids(a) + Ids(first) == Ids(a);
    FirstWinsKeeps(more, Ids(a));
    EmptyAppend(more);
  }

  lemma FirstIsThere(devices: seq<Device>)
    ensures Ids(FirstWins(devices, {})) <= Ids(devices)
  {
    FirstWinsMembers(devices, {});
    forall d | d in FirstWins(devices, {}) ensures d in devices {
      FirstWithIsThere(devices, d.id);
    }
  }

  lemma {:induction false} FirstWithIsThere(devices: seq<Device>, id: string)
    ensures FirstWith(devices, id).Some? ==> FirstWith(devices, id).value in devices
  {
    if devices != [] {
      FirstWithIsThere(devices[1..], id);
    }
  }

  lemma DeduplicatedIsUsable(devices: seq<Device>)
    ensures UsableOnly(Deduplicated(devices)) == Deduplicated(devices)
  {
    DeduplicatedMembers(devices);
    UsableMembers(Deduplicated(devices));
  }

  /** With no usable device at all there is nothing to trust. */
  lemma NoneUsable(devices: seq<Device>)
    requires Deduplicated(devices) == []
    ensures UsableOnly(devices) == []
  {
  }

  lemma UsableOne(d: Device)
    ensures UsableOnly([d]) == if Usable(d) then [d] else []
  {
    assert [d][1..] == [];
  }

  /** What a repeated merge deduplicates, when the first one found something to trust. */
  lemma MergeSomeAgain(additional: seq<Device>, devices: seq<Device>, primary: Device)
    requires primary in Deduplicated(additional + devices)
    ensures Deduplicated(additional + Deduplicated(additional + devices) + [primary]) == Deduplicated(additional + devices)
  {
    var kept := Deduplicated(additional + devices);
    var a, b := UsableOnly(additional), UsableOnly(devices);
    UsableSplits(additional, devices);
    assert kept == FirstWins(a + b, {});
    DeduplicatedIsUsable(additional + devices);
    UsableSplits(additional, kept);
    UsableSplits(additional + kept, [primary]);
    UsableMembers(kept);
    UsableOne(primary);
    assert UsableOnly(additional + kept + [primary]) == a + kept + [primary];
    LateRepeatIsDropped(a + kept, primary, {});
    FirstWinsAgain(a, b);
  }

  /** Merging the same devices again changes nothing. */
  lemma MergeAgain(authority: Authority, additional: seq<Device>)
    ensures var merged := Merge(authority, additional);
      Merge(merged, additional) == merged
  {
    var devices := authority.trusted + [authority.primary];
    var merged := Merge(authority, additional);
    AppendAppend(additional, authority.trusted, [authority.primary]);
    assert merged.trusted == Deduplicated(additional + devices);
    if merged.trusted != [] {
      MergeSomeAgain(additional, devices, merged.primary);
    } else {
      NoneUsable(additional + devices);
      UsableSplits(additional, devices);
      UsableSplits(authority.trusted, [authority.primary]);
      EmptyAppend(additional);
      UsableSplits(additional, [authority.primary]);
      assert additional + merged.trusted + [merged.primary] == additional + [authority.primary];
    }
  }

  /** Additional usable devices decide their ids' keys, and the first of them becomes the primary device. */
  lemma AdditionalDeviceWins(authority: Authority, additional: seq<Device>, d: Device)
    requires d in Deduplicated(additional)
    ensures var merged := Merge(authority, additional);
      d in merged.trusted && merged.primary in merged.trusted && merged.primary == Deduplicated(additional)[0]
  {
    var devices := additional + authority.trusted + [authority.primary];
    FirstWinsPrefix(UsableOnly(additional), UsableOnly(authority.trusted + [authority.primary]), {});
    UsableSplits(additional, authority.trusted + [authority.primary]);
    assert devices == additional + (authority.trusted + [authority.primary]);
  }

  lemma {:induction false} FirstWinsPrefix(a: seq<Device>, b: seq<Device>, seen: set<string>)
    ensures FirstWins(a, seen) <= FirstWins(a + b, seen)
  {
    if a != [] {
      assert (a + b)[1..] == a[1..] + b;
      FirstWinsPrefix(a[1..], b, if a[0].id in seen then seen else seen + {a[0].id});
    }
  }

  lemma {:induction false} UsableSplits(a: seq<Device>, b: seq<Device>)
    ensures UsableOnly(a + b) == UsableOnly(a) + UsableOnly(b)
  {
    if a == [] {
      assert a + b == b;
    } else {
      assert (a + b)[1..] == a[1..] + b;
      UsableSplits(a[1..], b);
    }
  }

  /** Somewhere in the list a usable device has this id. */
  ghost predicate Offers(devices: seq<Device>, id: string) { exists d :: d in devices && Usable(d) && d.id == id }

  /** The device is the first usable one of its id in the list. */
  ghost predicate FirstIn(devices: seq<Device>, d: Device) { exists i: nat :: FirstOfItsId(devices, i) && devices[i] == d }

  lemma FirstInConcat(a: seq<Device>, b: seq<Device>, d: Device)
    ensures FirstIn(a + b, d) <==> FirstIn(a, d) || (!Offers(a, d.id) && FirstIn(b, d))
  {
    if i: nat :| FirstOfItsId(a + b, i) && (a + b)[i] == d {
      if i < |a| {
        assert forall j :: 0 <= j <= i ==> a[j] == (a + b)[j];
        assert FirstOfItsId(a, i) && a[i] == d;
      } else {
        assert forall j :: 0 <= j < |a| ==> (a + b)[j] == a[j];
        assert forall j :: 0 <= j < i - |a| ==> b[j] == (a + b)[|a| + j];
        assert FirstOfItsId(b, i - |a|) && b[i - |a|] == d;
      }
    }
    if i: nat :| FirstOfItsId(a, i) && a[i] == d {
      assert forall j :: 0 <= j <= i ==> (a + b)[j] == a[j];
      assert FirstOfItsId(a + b, i) && (a + b)[i] == d;
    }
    if !Offers(a, d.id) && FirstIn(b, d) {
      var i: nat :| FirstOfItsId(b, i) && b[i] == d;
      assert forall j :: 0 <= j < |a| ==> (a + b)[j] == a[j] && a[j] in a;
      assert forall j :: |a| <= j < |a| + i ==> (a + b)[j] == b[j - |a|];
      assert FirstOfItsId(a + b, |a| + i) && (a + b)[|a| + i] == d;
    }
  }

  lemma FirstInOne(p: Device, d: Device)
    ensures FirstIn([p], d) <==> d == p && Usable(p)
  {
    if Usable(p) {
      assert FirstOfItsId([p], 0);
    }
  }

  /**
   * A merged authority trusts, for each id, the first usable device among the additional ones, else among its own, else
   * its primary one.
   */
  lemma MergedMembers(authority: Authority, additional: seq<Device>, d: Device)
    ensures d in Merge(authority, additional).trusted <==>
      FirstIn(additional, d) ||
      (!Offers(additional, d.id) && FirstIn(authority.trusted, d)) ||
      (!Offers(additional, d.id) && !Offers(authority.trusted, d.id) && d == authority.primary && Usable(d))
  {
    var own := authority.trusted + [authority.primary];
    AppendAppend(additional, authority.trusted, [authority.primary]);
    DeduplicatedMembers(additional + own);
    FirstInConcat(additional, own, d);
    FirstInConcat(authority.trusted, [authority.primary], d);
    FirstInOne(authority.primary, d);
  }

  /** The primary device is the first usable one of all, and stays what it was when none is usable. */
  lemma MergedPrimary(authority: Authority, additional: seq<Device>)
    ensures var all, merged := UsableOnly(additional + authority.trusted + [authority.primary]), Merge(authority, additional);
      merged.primary == if all == [] then authority.primary else all[0]
  {
  }
}
