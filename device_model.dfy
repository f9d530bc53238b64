/**
 * The Device model of server/models/Device.js: the status enum, the port
 * validator, the document and its validation on save, the defaults, the
 * pre-save hook, `isUnderAttack`, and the model's collection with the two
 * statics `markUnderAttack` and `clearAttackStatus`.
 *
 * `attackers` is the Boolean flag this schema declares. The attacker
 * controller pushes ids into the same field as if it were an array; that
 * view is modelled on its own in attacker_registry.dfy and the mismatch is
 * left as the source has it.
 */
module DeviceModel {
  import opened Api
  import opened DeviceSchema

  type DeviceId = nat

  // ---------------------------------------------------------------------
  // Field validators
  // ---------------------------------------------------------------------

  datatype Status = Active | Inactive | Blocked

  function StatusName(s: Status): string
  {
    match s
    case Active => "active"
    case Inactive => "inactive"
    case Blocked => "blocked"
  }

  /** The `enum: ["active", "inactive", "blocked"]` validator: exact, case-sensitive names only. */
  function ParseStatus(t: string): (r: Option<Status>)
    ensures r.Some? ==> StatusName(r.value) == t
    ensures r.None? <==> forall s: Status :: StatusName(s) != t
  {
    if t == "active" then Some(Active)
    else if t == "inactive" then Some(Inactive)
    else if t == "blocked" then Some(Blocked)
    else None
  }

  /** Every status round-trips through its stored name. */
  lemma StatusRoundTrip(s: Status)
    ensures ParseStatus(StatusName(s)) == Some(s)
  {
  }

  const PortMin: int := 0
  const PortMax: int := 65535

  /**
   * The port validators: `Number.isInteger(v)`, `min: 0` and `max: 65535`.
   * The value arrives as a number, so it is modelled as a real.
   */
  function PortValue(p: real): (r: Option<int>)
    ensures r.Some? ==> r.value as real == p && PortMin <= r.value <= PortMax
    ensures r.None? ==> p.Floor as real != p || p < PortMin as real || p > PortMax as real
  {
    if p.Floor as real == p && PortMin as real <= p <= PortMax as real then Some(p.Floor) else None
  }

  /** Both ends of the range are accepted; one past either end and fractions are not. */
  lemma PortBoundaries()
    ensures PortValue(0.0) == Some(0) && PortValue(65535.0) == Some(65535)
    ensures PortValue(-1.0).None? && PortValue(65536.0).None? && PortValue(80.5).None?
  {
  }

  // ---------------------------------------------------------------------
  // The document
  // ---------------------------------------------------------------------

  /** A stored device. `createdAt`/`updatedAt` are kept by Mongoose and are not modelled. */
  datatype Device = Device(
    name: string,
    ip: string,
    port: int,
    status: Status,
    attackers: bool,
    lastActive: Time)

  /**
   * A device document as assigned in memory before `save()` validates it:
   * the setters have already trimmed the strings, but the port may be any
   * number and the status any string.
   */
  datatype Draft = Draft(
    name: string,
    ip: string,
    port: real,
    status: string,
    attackers: bool,
    lastActive: Time)

  /** What every stored device satisfies: the schema's rules on a trimmed document. */
  predicate WellFormed(d: Device)
  {
    && d.name != [] && IsTrimmed(d.name)
    && IsIpAddress(d.ip) && IsTrimmed(d.ip)
    && PortMin <= d.port <= PortMax
  }

  /** The document as it is loaded back from the store. */
  function ToDraft(d: Device): Draft
  {
    Draft(d.name, d.ip, d.port as real, StatusName(d.status), d.attackers, d.lastActive)
  }

  /**
   * Validation on save: `name` and `ip` are required (non-empty), `ip` must
   * pass the IP pattern, `port` must be an integer in range and `status`
   * one of the enum names. Either every rule holds and the typed document
   * results, or the save fails.
   */
  function Validate(d: Draft): (r: Option<Device>)
    ensures r.Some? <==>
      d.name != [] && d.ip != [] && IsIpAddress(d.ip) && PortValue(d.port).Some? && ParseStatus(d.status).Some?
    ensures r.Some? ==>
      && r.value.name == d.name && r.value.ip == d.ip && r.value.port as real == d.port
      && StatusName(r.value.status) == d.status
      && r.value.attackers == d.attackers && r.value.lastActive == d.lastActive
    ensures r.Some? && IsTrimmed(d.name) && IsTrimmed(d.ip) ==> WellFormed(r.value)
  {
    if d.name != [] && d.ip != [] && IsIpAddress(d.ip) && PortValue(d.port).Some? && ParseStatus(d.status).Some? then
      Some(Device(d.name, d.ip, PortValue(d.port).value, ParseStatus(d.status).value, d.attackers, d.lastActive))
    else
      None
  }

  /** A stored device passes validation again unchanged, so re-saving a loaded document cannot fail. */
  lemma RevalidateStored(d: Device)
    requires WellFormed(d)
    ensures Validate(ToDraft(d)) == Some(d)
  {
    StatusRoundTrip(d.status);
  }

  /**
   * `new Device({...})`: the trim setters run on `name` and `ip`; a missing
   * `status` defaults to "active", a missing `last_active` to now, and
   * `attackers` always starts as false.
   */
  function NewDocument(name: string, ip: string, port: real, status: Option<string>,
                       lastActive: Option<Time>, now: Time): Draft
  {
    Draft(Trim(name), Trim(ip), port,
          if status.Some? then status.value else "active",
          false,
          if lastActive.Some? then lastActive.value else now)
  }

  /**
   * With only the required fields given, a new device is valid exactly when
   * its name is not blank, its trimmed ip passes the pattern and its port is
   * accepted; it is then active, not under attack, last active now, and
   * well formed.
   */
  lemma NewDocumentDefaults(name: string, ip: string, port: real, now: Time)
    ensures var r := Validate(NewDocument(name, ip, port, None, None, now));
      && (r.Some? <==> !AllSpace(name) && IsIpAddress(Trim(ip)) && PortValue(port).Some?)
      && (r.Some? ==> r.value.status == Active && !r.value.attackers && r.value.lastActive == now)
      && (r.Some? ==> WellFormed(r.value))
  {
    TrimmedIsFixed(name);
    TrimmedIsFixed(ip);
  }

  /** `isUnderAttack`: `this.attackers === true`. */
  predicate IsUnderAttack(d: Device)
  {
    d.attackers
  }

  // ---------------------------------------------------------------------
  // The pre-save hook
  // ---------------------------------------------------------------------

  /** The hook's rule on `last_active`: refreshed to now exactly when `attackers` was modified. */
  function Touched(lastActive: Time, attackersModified: bool, now: Time): Time
  {
    if attackersModified then now else lastActive
  }

  /** The `pre("save")` hook changes no field but `last_active`. */
  function PreSave(d: Device, attackersModified: bool, now: Time): (r: Device)
    ensures r.(lastActive := d.lastActive) == d
    ensures attackersModified ==> r.lastActive == now
    ensures !attackersModified ==> r == d
  {
    d.(lastActive := Touched(d.lastActive, attackersModified, now))
  }

  // ---------------------------------------------------------------------
  // The statics' updates
  // ---------------------------------------------------------------------

  /** name, ip and port are the same in both devices. */
  predicate SameIdentity(a: Device, b: Device)
  {
    a.name == b.name && a.ip == b.ip && a.port == b.port
  }

  /** The update document of `markUnderAttack`. */
  function MarkedUnderAttack(d: Device, now: Time): (r: Device)
    ensures IsUnderAttack(r) && r.status == Blocked && r.lastActive == now
    ensures SameIdentity(r, d)
    ensures WellFormed(d) ==> WellFormed(r)
  {
    d.(attackers := true, status := Blocked, lastActive := now)
  }

  /** The update document of `clearAttackStatus`. */
  function AttackCleared(d: Device, now: Time): (r: Device)
    ensures !IsUnderAttack(r) && r.status == Active && r.lastActive == now
    ensures SameIdentity(r, d)
    ensures WellFormed(d) ==> WellFormed(r)
  {
    d.(attackers := false, status := Active, lastActive := now)
  }

  /**
   * Clearing forgets everything marking did: mark-then-clear equals a plain
   * clear, clearing twice equals clearing once at the later time, and both
   * end in (false, "active").
   */
  lemma ClearUndoesMark(d: Device, t1: Time, t2: Time)
    ensures AttackCleared(MarkedUnderAttack(d, t1), t2) == AttackCleared(d, t2)
    ensures AttackCleared(AttackCleared(d, t1), t2) == AttackCleared(d, t2)
  {
  }

  // ---------------------------------------------------------------------
  // The collection behind the model
  // ---------------------------------------------------------------------

  /**
   * The Device collection: a table from ids to stored documents. Ids come
   * from a counter, so a new id is never one already in use.
   */
  class DeviceCollection {
    var docs: map<DeviceId, Device>
    var nextId: DeviceId

    ghost predicate Valid()
      reads this
    {
      forall id :: id in docs ==> id < nextId && WellFormed(docs[id])
    }

    constructor ()
      ensures Valid() && docs == map[]
    {
      docs := map[];
      nextId := 0;
    }

    /** `findById`: the document with that id, if any; nothing changes. */
    method FindById(id: DeviceId) returns (r: Option<Device>)
      ensures r.Some? <==> id in docs
      ensures r.Some? ==> r.value == docs[id]
    {
      r := if id in docs then Some(docs[id]) else None;
    }

    /** `save()` of a new document: stored under a fresh id. */
    method Insert(d: Device) returns (id: DeviceId)
      requires Valid() && WellFormed(d)
      modifies this
      ensures Valid()
      ensures id !in old(docs) && docs == old(docs)[id := d]
    {
      id := nextId;
      docs := docs[id := d];
      nextId := nextId + 1;
    }

    /** `save()` of a loaded document: the pre-save hook runs, then the document replaces the stored one. */
    method Save(id: DeviceId, d: Device, attackersModified: bool, now: Time) returns (saved: Device)
      requires Valid() && id in docs && WellFormed(d)
      modifies this
      ensures Valid()
      ensures saved == PreSave(d, attackersModified, now)
      ensures docs == old(docs)[id := saved]
    {
      saved := PreSave(d, attackersModified, now);
      docs := docs[id := saved];
    }

    /** `findByIdAndDelete`: removes and returns the document, or reports that there was none. */
    method FindByIdAndDelete(id: DeviceId) returns (r: Option<Device>)
      requires Valid()
      modifies this
      ensures Valid()
      ensures r.Some? <==> id in old(docs)
      ensures r.Some? ==> r.value == old(docs)[id]
      ensures docs == old(docs) - {id}
    {
      r := if id in docs then Some(docs[id]) else None;
      docs := docs - {id};
    }

    /**
     * `markUnderAttack(id)`: `findByIdAndUpdate` with attackers = true,
     * status = "blocked", last_active = now, returning the updated document.
     * An absent id changes nothing; no other device changes.
     */
    method MarkUnderAttack(id: DeviceId, now: Time) returns (r: Option<Device>)
      requires Valid()
      modifies this
      ensures Valid()
      ensures id !in old(docs) ==> r == None && docs == old(docs)
      ensures id in old(docs) ==>
        r == Some(MarkedUnderAttack(old(docs)[id], now)) && docs == old(docs)[id := r.value]
    {
      if id in docs {
        var d := MarkedUnderAttack(docs[id], now);
        docs := docs[id := d];
        r := Some(d);
      } else {
        r := None;
      }
    }

    /** `clearAttackStatus(id)`: attackers = false, status = "active", last_active = now. */
    method ClearAttackStatus(id: DeviceId, now: Time) returns (r: Option<Device>)
      requires Valid()
      modifies this
      ensures Valid()
      ensures id !in old(docs) ==> r == None && docs == old(docs)
      ensures id in old(docs) ==>
        r == Some(AttackCleared(old(docs)[id], now)) && docs == old(docs)[id := r.value]
    {
      if id in docs {
        var d := AttackCleared(docs[id], now);
        docs := docs[id := d];
        r := Some(d);
      } else {
        r := None;
      }
    }
  }
}
