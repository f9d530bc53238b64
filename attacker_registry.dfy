/**
 * The handlers of server/controllers/attacker.js over the Attacker and
 * Device collections: creating an attacker (after the geolocation lookup)
 * and appending its id to the devices it targets, listing by latest attack,
 * the point lookups, the update, and deleting an attacker together with
 * pulling its id back out of the devices.
 *
 * Here a device's `attackers` is an array of attacker ids, as this
 * controller uses it (`push` at line 42, `$pull` at line 111), although
 * server/models/Device.js declares the field Boolean. The model keeps both
 * views side by side, as the source does, and does not reconcile them.
 */
module AttackerRegistry {
  import opened Api
  import DeviceSchema
  import DeviceModel

  type AttackerId = nat

  /** One `{ ip, port }` entry of the request's `devices` list. */
  datatype Target = Target(ip: string, port: int)

  datatype Location = Location(latitude: real, longitude: real)

  /** An attacker document. `status` is passed through from the request as given. */
  datatype Attacker = Attacker(
    ip: string,
    location: Location,
    latestAttack: Time,
    status: Option<string>,
    devices: seq<Target>)

  datatype Entry = Entry(id: AttackerId, attacker: Attacker)

  /** What the ip-api.com lookup answered: its `status`, `lat` and `lon`. */
  datatype GeoLookup = GeoLookup(status: string, lat: real, lon: real)

  /** A device document as this controller reads and writes it. Its other fields are not touched here. */
  datatype LinkedDevice = LinkedDevice(
    ip: string,
    port: int,
    attackers: seq<AttackerId>,
    lastActive: Time)

  /** The fields of an update body; `None` leaves a field as it is. */
  datatype AttackerPatch = AttackerPatch(
    ip: Option<string>,
    location: Option<Location>,
    latestAttack: Option<Time>,
    status: Option<string>,
    devices: Option<seq<Target>>)

  const LookupFailedMessage: string := "Không thể lấy vị trí từ IP"
  const NotFoundMessage: string := "Attacker not found"
  const NotFoundByIpMessage: string := "Attacker not found with this IP"
  const DeletedMessage: string := "Attacker deleted successfully"

  // ---------------------------------------------------------------------
  // Finding the device a target names
  // ---------------------------------------------------------------------

  /**
   * The filter `{ ip: t.ip, port: t.port }` after Mongoose has cast it:
   * casting runs the path's setters, so the `trim: true` setter on the
   * device's `ip` applies to the target's ip.
   */
  datatype Filter = Filter(ip: string, port: int)

  function FilterOf(t: Target): Filter
  {
    Filter(DeviceSchema.Trim(t.ip), t.port)
  }

  /** The cast filters of a target list, in order. */
  function Filters(ts: seq<Target>): (fs: seq<Filter>)
    ensures |fs| == |ts|
  {
    if ts == [] then [] else Filters(ts[..|ts| - 1]) + [FilterOf(ts[|ts| - 1])]
  }

  /** The k-th cast filter is the cast of the k-th target. */
  lemma {:induction false} FiltersAt(ts: seq<Target>, k: nat)
    requires k < |ts|
    ensures Filters(ts)[k] == FilterOf(ts[k])
  {
    if k < |ts| - 1 {
      FiltersAt(ts[..|ts| - 1], k);
    }
  }

  predicate Matches(d: LinkedDevice, t: Filter)
  {
    d.ip == t.ip && d.port == t.port
  }

  /** `findOne({ ip, port })` / `updateOne({ ip, port }, ...)`: the first matching device in collection order. */
  function FirstMatch(devs: seq<LinkedDevice>, t: Filter): (r: Option<nat>)
    ensures r.Some? ==> r.value < |devs| && Matches(devs[r.value], t)
    ensures r.Some? ==> forall j :: 0 <= j < r.value ==> !Matches(devs[j], t)
    ensures r.None? ==> forall j :: 0 <= j < |devs| ==> !Matches(devs[j], t)
  {
    if devs == [] then None
    else if Matches(devs[0], t) then Some(0)
    else match FirstMatch(devs[1..], t)
      case None => None
      case Some(i) => Some(i + 1)
  }

  /** A target whose ip carries white space around it still finds the device stored under the bare ip. */
  lemma PaddedTargetMatches()
    ensures FirstMatch([LinkedDevice("10.0.0.1", 80, [], 0)], FilterOf(Target(" 10.0.0.1", 80))) == Some(0)
  {
    var s := " 10.0.0.1";
    assert DeviceSchema.LeadingSpace(s, 0) == 1;
    assert DeviceSchema.TrailingSpace(s, |s|) == 0;
    assert s[1..|s|] == "10.0.0.1";
  }

  /** d1 and d2 list the same (ip, port) keys in the same order. */
  predicate SameKeys(d1: seq<LinkedDevice>, d2: seq<LinkedDevice>)
  {
    |d1| == |d2| && forall i :: 0 <= i < |d1| ==> d1[i].ip == d2[i].ip && d1[i].port == d2[i].port
  }

  lemma SameKeysFirstMatch(d1: seq<LinkedDevice>, d2: seq<LinkedDevice>, t: Filter)
    requires SameKeys(d1, d2)
    ensures FirstMatch(d1, t) == FirstMatch(d2, t)
  {
    var r1, r2 := FirstMatch(d1, t), FirstMatch(d2, t);
    if r1.Some? { assert Matches(d2[r1.value], t); }
    if r2.Some? { assert Matches(d1[r2.value], t); }
  }

  /** How many targets in ts name device i (their first match is i). */
  function Hits(devs: seq<LinkedDevice>, ts: seq<Filter>, i: nat): nat
  {
    if ts == [] then 0
    else Hits(devs, ts[..|ts| - 1], i) + (if FirstMatch(devs, ts[|ts| - 1]) == Some(i) then 1 else 0)
  }

  lemma {:induction false} SameKeysHits(d1: seq<LinkedDevice>, d2: seq<LinkedDevice>, ts: seq<Filter>, i: nat)
    requires SameKeys(d1, d2)
    ensures Hits(d1, ts, i) == Hits(d2, ts, i)
  {
    if ts != [] {
      SameKeysHits(d1, d2, ts[..|ts| - 1], i);
      SameKeysFirstMatch(d1, d2, ts[|ts| - 1]);
    }
  }

  // ---------------------------------------------------------------------
  // Id lists
  // ---------------------------------------------------------------------

  /** n copies of a. */
  function Repeat(a: AttackerId, n: nat): (r: seq<AttackerId>)
    ensures |r| == n && forall k :: 0 <= k < n ==> r[k] == a
  {
    if n == 0 then [] else Repeat(a, n - 1) + [a]
  }

  /** `$pull: { attackers: a }`: every occurrence of a removed, the rest kept in order. */
  function Without(refs: seq<AttackerId>, a: AttackerId): (r: seq<AttackerId>)
    ensures a !in r
    ensures forall x :: x in r <==> x in refs && x != a
    ensures a !in refs ==> r == refs
  {
    if refs == [] then []
    else (if refs[0] == a then [] else [refs[0]]) + Without(refs[1..], a)
  }

  lemma {:induction false} WithoutAppend(xs: seq<AttackerId>, ys: seq<AttackerId>, a: AttackerId)
    ensures Without(xs + ys, a) == Without(xs, a) + Without(ys, a)
  {
    if xs != [] {
      assert (xs + ys)[1..] == xs[1..] + ys;
      WithoutAppend(xs[1..], ys, a);
    } else {
      assert xs + ys == ys;
    }
  }

  lemma {:induction false} WithoutRepeat(a: AttackerId, n: nat)
    ensures Without(Repeat(a, n), a) == []
  {
    if n > 0 {
      WithoutRepeat(a, n - 1);
      WithoutAppend(Repeat(a, n - 1), [a], a);
    }
  }

  // ---------------------------------------------------------------------
  // The two reconciliation loops as functions of the device list
  // ---------------------------------------------------------------------

  /**
   * One turn of the creation loop: the first device matching t gets a
   * pushed onto its `attackers`, and its `save()` runs the pre-save hook,
   * which refreshes `last_active` because `attackers` was modified.
   */
  function Pushed(devs: seq<LinkedDevice>, t: Filter, a: AttackerId, now: Time): (r: seq<LinkedDevice>)
    ensures SameKeys(devs, r)
  {
    match FirstMatch(devs, t)
    case None => devs
    case Some(i) =>
      devs[i := devs[i].(attackers := devs[i].attackers + [a],
                         lastActive := DeviceModel.Touched(devs[i].lastActive, true, now))]
  }

  function PushedAll(devs: seq<LinkedDevice>, ts: seq<Filter>, a: AttackerId, now: Time): (r: seq<LinkedDevice>)
    ensures SameKeys(devs, r)
  {
    if ts == [] then devs else Pushed(PushedAll(devs, ts[..|ts| - 1], a, now), ts[|ts| - 1], a, now)
  }

  /** One `updateOne({ ip, port }, { $pull: { attackers: a } })`. No document middleware runs. */
  function Pulled(devs: seq<LinkedDevice>, t: Filter, a: AttackerId): (r: seq<LinkedDevice>)
    ensures SameKeys(devs, r)
  {
    match FirstMatch(devs, t)
    case None => devs
    case Some(i) => devs[i := devs[i].(attackers := Without(devs[i].attackers, a))]
  }

  function PulledAll(devs: seq<LinkedDevice>, ts: seq<Filter>, a: AttackerId): (r: seq<LinkedDevice>)
    ensures SameKeys(devs, r)
  {
    if ts == [] then devs else Pulled(PulledAll(devs, ts[..|ts| - 1], a), ts[|ts| - 1], a)
  }

  /** One turn of the creation loop changes only the first device matching t. */
  lemma PushedStep(q: seq<LinkedDevice>, t: Filter, a: AttackerId, now: Time, i: nat)
    requires i < |q|
    ensures |Pushed(q, t, a, now)| == |q|
    ensures Pushed(q, t, a, now)[i] ==
      if FirstMatch(q, t) == Some(i) then q[i].(attackers := q[i].attackers + [a], lastActive := now) else q[i]
  {
  }

  /**
   * What creation does to the devices: the first device matching a target
   * gets the id once per occurrence of that target, with `last_active`
   * refreshed; targets matching nothing are skipped; every device no target
   * names is unchanged; no (ip, port) key changes.
   */
  lemma {:induction false} PushedAllEffect(devs: seq<LinkedDevice>, ts: seq<Filter>, a: AttackerId, now: Time, i: nat)
    requires i < |devs|
    ensures |PushedAll(devs, ts, a, now)| == |devs|
    ensures var d := PushedAll(devs, ts, a, now)[i];
      && d.ip == devs[i].ip && d.port == devs[i].port
      && d.attackers == devs[i].attackers + Repeat(a, Hits(devs, ts, i))
      && (Hits(devs, ts, i) == 0 ==> d == devs[i])
      && (Hits(devs, ts, i) > 0 ==> d.lastActive == now)
  {
    if ts != [] {
      var init, t := ts[..|ts| - 1], ts[|ts| - 1];
      var q := PushedAll(devs, init, a, now);
      SameKeysFirstMatch(devs, q, t);
      PushedAllEffect(devs, init, a, now, i);
      PushedStep(q, t, a, now, i);
      var n := Hits(devs, init, i);
      if FirstMatch(devs, t) == Some(i) {
        assert Hits(devs, ts, i) == n + 1;
        assert Repeat(a, n + 1) == Repeat(a, n) + [a];
      } else {
        assert Hits(devs, ts, i) == n;
      }
    }
  }

  /**
   * Creation keeps the device list's keys, and every id a device then
   * references is one it referenced before or the new one.
   */
  lemma PushedAllRefs(devs: seq<LinkedDevice>, ts: seq<Filter>, a: AttackerId, now: Time)
    ensures var p := PushedAll(devs, ts, a, now);
      && SameKeys(devs, p)
      && forall i, x :: 0 <= i < |p| && x in p[i].attackers ==> x in devs[i].attackers || x == a
  {
    var p := PushedAll(devs, ts, a, now);
    forall i | 0 <= i < |devs|
      ensures p[i].ip == devs[i].ip && p[i].port == devs[i].port
      ensures forall x :: x in p[i].attackers ==> x in devs[i].attackers || x == a
    {
      PushedAllEffect(devs, ts, a, now, i);
    }
  }

  /** Deletion keeps the device list's keys and adds no reference. */
  lemma PulledAllRefs(devs: seq<LinkedDevice>, ts: seq<Filter>, a: AttackerId)
    ensures var p := PulledAll(devs, ts, a);
      && SameKeys(devs, p)
      && forall i, x :: 0 <= i < |p| && x in p[i].attackers ==> x in devs[i].attackers
  {
    var p := PulledAll(devs, ts, a);
    forall i | 0 <= i < |devs|
      ensures p[i].ip == devs[i].ip && p[i].port == devs[i].port
      ensures forall x :: x in p[i].attackers ==> x in devs[i].attackers
    {
      PulledAllEffect(devs, ts, a, i);
    }
  }

  /** One `$pull` changes only the first device matching t. */
  lemma PulledStep(q: seq<LinkedDevice>, t: Filter, a: AttackerId, i: nat)
    requires i < |q|
    ensures |Pulled(q, t, a)| == |q|
    ensures Pulled(q, t, a)[i] ==
      if FirstMatch(q, t) == Some(i) then q[i].(attackers := Without(q[i].attackers, a)) else q[i]
  {
  }

  /**
   * What deletion does to the devices: every occurrence of the id is pulled
   * from each device some target names; every other device, and every
   * `last_active`, is left as it was.
   */
  lemma {:induction false} PulledAllEffect(devs: seq<LinkedDevice>, ts: seq<Filter>, a: AttackerId, i: nat)
    requires i < |devs|
    ensures |PulledAll(devs, ts, a)| == |devs|
    ensures var d := PulledAll(devs, ts, a)[i];
      && d.ip == devs[i].ip && d.port == devs[i].port && d.lastActive == devs[i].lastActive
      && d.attackers == if Hits(devs, ts, i) > 0 then Without(devs[i].attackers, a) else devs[i].attackers
  {
    if ts != [] {
      var init, t := ts[..|ts| - 1], ts[|ts| - 1];
      var q := PulledAll(devs, init, a);
      SameKeysFirstMatch(devs, q, t);
      PulledAllEffect(devs, init, a, i);
      PulledStep(q, t, a, i);
      if FirstMatch(devs, t) == Some(i) {
        var w := Without(devs[i].attackers, a);
        assert Without(w, a) == w;
      }
    }
  }

  /**
   * Creating an attacker whose id no device references yet and then
   * deleting it, with no update in between, gives every device back its
   * attacker list; the keys are unchanged too.
   */
  lemma CreateDeleteRoundTrip(devs: seq<LinkedDevice>, ts: seq<Filter>, a: AttackerId, now: Time)
    requires forall i :: 0 <= i < |devs| ==> a !in devs[i].attackers
    ensures var q := PulledAll(PushedAll(devs, ts, a, now), ts, a);
      SameKeys(devs, q) && forall i :: 0 <= i < |devs| ==> q[i].attackers == devs[i].attackers
  {
    var p := PushedAll(devs, ts, a, now);
    PushedAllRefs(devs, ts, a, now);
    var q := PulledAll(p, ts, a);
    forall i | 0 <= i < |devs|
      ensures q[i].ip == devs[i].ip && q[i].port == devs[i].port
      ensures q[i].attackers == devs[i].attackers
    {
      PushedAllEffect(devs, ts, a, now, i);
      PulledAllEffect(p, ts, a, i);
      SameKeysHits(devs, p, ts, i);
      if Hits(devs, ts, i) > 0 {
        WithoutAppend(devs[i].attackers, Repeat(a, Hits(devs, ts, i)), a);
        WithoutRepeat(a, Hits(devs, ts, i));
        assert Without(devs[i].attackers, a) + [] == devs[i].attackers;
      }
    }
  }

  /** Every attacker id any device references is below bound. */
  ghost predicate RefsBelow(devs: seq<LinkedDevice>, bound: AttackerId)
  {
    forall i, x :: 0 <= i < |devs| && x in devs[i].attackers ==> x < bound
  }

  // ---------------------------------------------------------------------
  // Ordering and lookups
  // ---------------------------------------------------------------------

  /** `sort({ latest_attack: -1 })`: latest attack non-increasing. */
  predicate SortedByLatest(s: seq<Entry>)
  {
    forall i, j :: 0 <= i < j < |s| ==> s[i].attacker.latestAttack >= s[j].attacker.latestAttack
  }

  /** One step of the sort: e placed before the first entry it is not earlier than. */
  function InsertByLatest(e: Entry, s: seq<Entry>): (r: seq<Entry>)
    ensures |r| == |s| + 1 && (r[0] == e || (s != [] && r[0] == s[0]))
  {
    if s == [] then [e]
    else if e.attacker.latestAttack >= s[0].attacker.latestAttack then [e] + s
    else [s[0]] + InsertByLatest(e, s[1..])
  }

  lemma {:induction false} InsertKeepsSorted(e: Entry, s: seq<Entry>)
    requires SortedByLatest(s)
    ensures SortedByLatest(InsertByLatest(e, s))
  {
    if s != [] {
      if e.attacker.latestAttack >= s[0].attacker.latestAttack {
        ConsSorted(e, s);
      } else {
        SortedTail(s);
        InsertKeepsSorted(e, s[1..]);
        ConsSorted(s[0], InsertByLatest(e, s[1..]));
      }
    }
  }

  lemma {:induction false} InsertPermutes(e: Entry, s: seq<Entry>)
    ensures multiset(InsertByLatest(e, s)) == multiset(s) + multiset{e}
  {
    if s != [] && e.attacker.latestAttack < s[0].attacker.latestAttack {
      InsertPermutes(e, s[1..]);
      assert s == [s[0]] + s[1..];
    }
  }

  lemma SortedTail(s: seq<Entry>)
    requires s != [] && SortedByLatest(s)
    ensures SortedByLatest(s[1..])
    ensures |s| > 1 ==> s[1].attacker.latestAttack <= s[0].attacker.latestAttack
  {
    var t := s[1..];
    forall i, j | 0 <= i < j < |t| ensures t[i].attacker.latestAttack >= t[j].attacker.latestAttack {
      assert t[i] == s[i + 1] && t[j] == s[j + 1];
    }
  }

  /** An entry no earlier than every entry of a sorted list can go in front of it. */
  lemma ConsSorted(h: Entry, t: seq<Entry>)
    requires SortedByLatest(t)
    requires t != [] ==> t[0].attacker.latestAttack <= h.attacker.latestAttack
    ensures SortedByLatest([h] + t)
  {
    var r := [h] + t;
    forall i, j | 0 <= i < j < |r| ensures r[i].attacker.latestAttack >= r[j].attacker.latestAttack {
      if i > 0 {
        assert r[i] == t[i - 1] && r[j] == t[j - 1];
      } else {
        assert r[j] == t[j - 1];
        assert t[0].attacker.latestAttack >= t[j - 1].attacker.latestAttack;
      }
    }
  }

  /** The store's sort: a permutation of the entries, latest attack first. */
  function SortByLatest(s: seq<Entry>): (r: seq<Entry>)
    ensures SortedByLatest(r)
    ensures multiset(r) == multiset(s)
  {
    if s == [] then []
    else
      var t := SortByLatest(s[1..]);
      InsertKeepsSorted(s[0], t);
      InsertPermutes(s[0], t);
      assert s == [s[0]] + s[1..];
      InsertByLatest(s[0], t)
  }

  /** `findById`: the position of the entry with that id. */
  function FindEntry(entries: seq<Entry>, id: AttackerId): (r: Option<nat>)
    ensures r.Some? ==> r.value < |entries| && entries[r.value].id == id
    ensures r.None? ==> forall k :: 0 <= k < |entries| ==> entries[k].id != id
  {
    if entries == [] then None
    else if entries[0].id == id then Some(0)
    else match FindEntry(entries[1..], id)
      case None => None
      case Some(k) => Some(k + 1)
  }

  /** `findOne({ ip })`: the position of the first entry with that ip. */
  function FindByIp(entries: seq<Entry>, ip: string): (r: Option<nat>)
    ensures r.Some? ==> r.value < |entries| && entries[r.value].attacker.ip == ip
    ensures r.Some? ==> forall k :: 0 <= k < r.value ==> entries[k].attacker.ip != ip
    ensures r.None? ==> forall k :: 0 <= k < |entries| ==> entries[k].attacker.ip != ip
  {
    if entries == [] then None
    else if entries[0].attacker.ip == ip then Some(0)
    else match FindByIp(entries[1..], ip)
      case None => None
      case Some(k) => Some(k + 1)
  }

  /** An entry whose id is new is found at the end once appended. */
  lemma {:induction false} FindAppended(entries: seq<Entry>, e: Entry)
    requires forall k :: 0 <= k < |entries| ==> entries[k].id != e.id
    ensures FindEntry(entries + [e], e.id) == Some(|entries|)
  {
    if entries != [] {
      assert (entries + [e])[1..] == entries[1..] + [e];
      FindAppended(entries[1..], e);
    }
  }

  /** Removing one entry keeps the ids distinct and below the counter. */
  lemma RemovedUnique(entries: seq<Entry>, k: nat, bound: AttackerId)
    requires k < |entries|
    requires forall l :: 0 <= l < |entries| ==> entries[l].id < bound
    requires forall l, m :: 0 <= l < m < |entries| ==> entries[l].id != entries[m].id
    ensures var rest := entries[..k] + entries[k + 1..];
      && (forall l :: 0 <= l < |rest| ==> rest[l].id < bound)
      && (forall l, m :: 0 <= l < m < |rest| ==> rest[l].id != rest[m].id)
  {
    var rest := entries[..k] + entries[k + 1..];
    forall l | 0 <= l < |rest| ensures rest[l] == entries[if l < k then l else l + 1] {
    }
  }

  /** `findByIdAndUpdate(id, req.body)`: each field present in the body replaces the stored one. */
  function Patched(a: Attacker, p: AttackerPatch): Attacker
  {
    Attacker(if p.ip.Some? then p.ip.value else a.ip,
             if p.location.Some? then p.location.value else a.location,
             if p.latestAttack.Some? then p.latestAttack.value else a.latestAttack,
             if p.status.Some? then p.status else a.status,
             if p.devices.Some? then p.devices.value else a.devices)
  }

  /**
   * An empty body changes nothing, and sending the same body twice has the
   * effect of sending it once.
   */
  lemma PatchLaws(a: Attacker, p: AttackerPatch)
    ensures Patched(a, AttackerPatch(None, None, None, None, None)) == a
    ensures Patched(Patched(a, p), p) == Patched(a, p)
  {
  }

  // ---------------------------------------------------------------------
  // The two collections and the handlers
  // ---------------------------------------------------------------------

  /**
   * The Attacker collection (entries in insertion order) and the Device
   * collection as this controller sees it. Attacker ids come from a
   * counter, so a new id is neither in use nor referenced by any device.
   */
  class AttackStore {
    var entries: seq<Entry>
    var devices: seq<LinkedDevice>
    var nextId: AttackerId

    ghost predicate Valid()
      reads this
    {
      && (forall k :: 0 <= k < |entries| ==> entries[k].id < nextId)
      && (forall k, l :: 0 <= k < l < |entries| ==> entries[k].id != entries[l].id)
      && RefsBelow(devices, nextId)
    }

    /** An empty Attacker collection beside devices that reference no attacker. */
    constructor (devices: seq<LinkedDevice>)
      requires forall i :: 0 <= i < |devices| ==> devices[i].attackers == []
      ensures Valid() && entries == [] && this.devices == devices
    {
      this.entries := [];
      this.devices := devices;
      this.nextId := 0;
    }

    /**
     * `createAttacker`, given the lookup's answer. A failed lookup is a 400
     * and changes neither collection. Otherwise the attacker is stored with
     * the looked-up location, `latest_attack` = now and the request's target
     * list, and then the loop over the targets appends its id to the first
     * matching device of each.
     */
    method CreateAttacker(ip: string, status: Option<string>, targets: seq<Target>, lookup: GeoLookup, now: Time)
      returns (r: Response<Entry>)
      requires Valid()
      modifies this
      ensures Valid()
      ensures lookup.status != "success" ==>
        r == BadRequest(LookupFailedMessage) && entries == old(entries) && devices == old(devices)
      ensures lookup.status == "success" ==>
        && r.Created?
        && r.value.attacker == Attacker(ip, Location(lookup.lat, lookup.lon), now, status, targets)
        && (forall k :: 0 <= k < |old(entries)| ==> old(entries)[k].id != r.value.id)
        && (forall i :: 0 <= i < |old(devices)| ==> r.value.id !in old(devices)[i].attackers)
        && entries == old(entries) + [r.value]
        && devices == PushedAll(old(devices), Filters(targets), r.value.id, now)
    {
      if lookup.status != "success" {
        return BadRequest(LookupFailedMessage);
      }
      var id := nextId;
      nextId := nextId + 1;
      var attacker := Attacker(ip, Location(lookup.lat, lookup.lon), now, status, targets);
      entries := entries + [Entry(id, attacker)];
      ghost var before := devices;
      PushToDevices(targets, id, now);
      PushedAllRefs(before, Filters(targets), id, now);
      assert RefsBelow(before, id);
      r := Created(Entry(id, attacker));
    }

    /**
     * The loop of `createAttacker` over the request's targets: `findOne`,
     * push the id, `save()` (which runs the pre-save hook).
     */
    method PushToDevices(targets: seq<Target>, id: AttackerId, now: Time)
      modifies this`devices
      ensures devices == PushedAll(old(devices), Filters(targets), id, now)
    {
      var i := 0;
      while i < |targets|
        invariant 0 <= i <= |targets|
        invariant devices == PushedAll(old(devices), Filters(targets[..i]), id, now)
      {
        var t := targets[i];
        var found := FirstMatch(devices, FilterOf(t));
        if found.Some? {
          var k := found.value;
          devices := devices[k := devices[k].(attackers := devices[k].attackers + [id],
                                              lastActive := DeviceModel.Touched(devices[k].lastActive, true, now))];
        }
        assert targets[..i + 1][..i] == targets[..i];
        i := i + 1;
      }
      assert targets[..|targets|] == targets;
    }

    /** `getAllAttackers`: every attacker, latest attack first; nothing changes. */
    method GetAllAttackers() returns (r: Response<seq<Entry>>)
      ensures r.Ok?
      ensures SortedByLatest(r.value)
      ensures multiset(r.value) == multiset(entries)
    {
      r := Ok(SortByLatest(entries));
    }

    /** `getAttackerById`: the attacker with that id, or 404; nothing changes. */
    method GetAttackerById(id: AttackerId) returns (r: Response<Entry>)
      ensures r.Ok? || r == NotFound(NotFoundMessage)
      ensures r.Ok? ==> r.value in entries && r.value.id == id
      ensures r.NotFound? <==> forall k :: 0 <= k < |entries| ==> entries[k].id != id
    {
      var k := FindEntry(entries, id);
      if k.None? {
        return NotFound(NotFoundMessage);
      }
      r := Ok(entries[k.value]);
    }

    /** `getAttackerByIp`: the first attacker with that ip, or 404; nothing changes. */
    method GetAttackerByIp(ip: string) returns (r: Response<Entry>)
      ensures r.Ok? || r == NotFound(NotFoundByIpMessage)
      ensures r.Ok? ==> exists k :: 0 <= k < |entries| && entries[k] == r.value
                                   && r.value.attacker.ip == ip
                                   && forall j :: 0 <= j < k ==> entries[j].attacker.ip != ip
      ensures r.NotFound? <==> forall k :: 0 <= k < |entries| ==> entries[k].attacker.ip != ip
    {
      var k := FindByIp(entries, ip);
      if k.None? {
        return NotFound(NotFoundByIpMessage);
      }
      r := Ok(entries[k.value]);
    }

    /**
     * `updateAttacker`: 404 and no change for an absent id; otherwise only
     * that attacker changes, field by field as the body says. The devices
     * are not touched, even when the target list changes.
     */
    method UpdateAttacker(id: AttackerId, patch: AttackerPatch) returns (r: Response<Entry>)
      requires Valid()
      modifies this
      ensures Valid()
      ensures devices == old(devices)
      ensures FindEntry(old(entries), id).None? ==>
        r == NotFound(NotFoundMessage) && entries == old(entries)
      ensures FindEntry(old(entries), id).Some? ==>
        var k := FindEntry(old(entries), id).value;
        && r == Ok(Entry(id, Patched(old(entries)[k].attacker, patch)))
        && entries == old(entries)[k := r.value]
    {
      var k := FindEntry(entries, id);
      if k.None? {
        return NotFound(NotFoundMessage);
      }
      var updated := Entry(id, Patched(entries[k.value].attacker, patch));
      entries := entries[k.value := updated];
      r := Ok(updated);
    }

    /**
     * `deleteAttacker`: 404 and no change for an absent id. Otherwise the
     * entry is removed and, for each of its targets, every occurrence of its
     * id is pulled from the first matching device.
     */
    method DeleteAttacker(id: AttackerId) returns (r: Response<string>)
      requires Valid()
      modifies this
      ensures Valid()
      ensures FindEntry(old(entries), id).None? ==>
        r == NotFound(NotFoundMessage) && entries == old(entries) && devices == old(devices)
      ensures FindEntry(old(entries), id).Some? ==>
        var k := FindEntry(old(entries), id).value;
        && r == Ok(DeletedMessage)
        && entries == old(entries)[..k] + old(entries)[k + 1..]
        && devices == PulledAll(old(devices), Filters(old(entries)[k].attacker.devices), id)
    {
      var found := FindEntry(entries, id);
      if found.None? {
        return NotFound(NotFoundMessage);
      }
      var k := found.value;
      var removed := entries[k];
      RemovedUnique(entries, k, nextId);
      entries := entries[..k] + entries[k + 1..];
      var targets := removed.attacker.devices;
      ghost var before := devices;
      PullFromDevices(targets, id);
      PulledAllRefs(before, Filters(targets), id);
      assert RefsBelow(devices, nextId) by {
        assert RefsBelow(before, nextId);
      }
      r := Ok(DeletedMessage);
    }

    /** The loop of `deleteAttacker`: one `updateOne` with `$pull` per target of the removed attacker. */
    method PullFromDevices(targets: seq<Target>, id: AttackerId)
      modifies this`devices
      ensures devices == PulledAll(old(devices), Filters(targets), id)
    {
      var i := 0;
      while i < |targets|
        invariant 0 <= i <= |targets|
        invariant devices == PulledAll(old(devices), Filters(targets[..i]), id)
      {
        var t := targets[i];
        var found := FirstMatch(devices, FilterOf(t));
        if found.Some? {
          var j := found.value;
          devices := devices[j := devices[j].(attackers := Without(devices[j].attackers, id))];
        }
        assert targets[..i + 1][..i] == targets[..i];
        i := i + 1;
      }
      assert targets[..|targets|] == targets;
    }

    /**
     * A successful creation followed at once by the deletion of the new
     * attacker leaves the Attacker collection as it was and gives every
     * device back its attacker list.
     */
    method CreateThenDelete(ip: string, status: Option<string>, targets: seq<Target>, lookup: GeoLookup, now: Time)
      requires Valid()
      modifies this
      ensures Valid()
      ensures entries == old(entries)
      ensures SameKeys(old(devices), devices)
      ensures forall i :: 0 <= i < |devices| ==> devices[i].attackers == old(devices)[i].attackers
    {
      ghost var entries0, devices0 := entries, devices;
      var created := CreateAttacker(ip, status, targets, lookup, now);
      if created.Created? {
        var id := created.value.id;
        FindAppended(entries0, created.value);
        var deleted := DeleteAttacker(id);
        assert entries == entries0;
        CreateDeleteRoundTrip(devices0, Filters(targets), id, now);
      }
    }
  }
}
