/**
 * The handlers of server/controllers/device.js as operations on the Device
 * collection: create, list, read, update and delete. Each returns the reply
 * the handler sends; the request body arrives with its fields optional,
 * since any of them may be `undefined`, and the clock reading `new Date()`
 * is passed in as `now`.
 */
module DeviceController {
  import opened Api
  import opened DeviceSchema
  import opened DeviceModel

  /** The fields `req.body` may carry. A numeric string port is taken as already converted to its number. */
  datatype DeviceBody = DeviceBody(
    name: Option<string>,
    ip: Option<string>,
    port: Option<real>,
    status: Option<string>)

  /** A device as the reply shows it: the document together with its `_id`. */
  datatype Stored = Stored(id: DeviceId, device: Device)

  const RequiredMessage: string := "Name, IP, and Port are required"
  const PortRangeMessage: string := "Port must be between 0 and 65535"
  const NotFoundMessage: string := "Device not found"
  const DeletedMessage: string := "Device deleted successfully"
  /** The message of the validation error `save()` throws, caught as a 500. Mongoose's exact wording is not modelled. */
  const InvalidMessage: string := "Device validation failed"

  /** The handlers' own range check, `port < 0 || port > 65535`. */
  predicate PortOutOfRange(p: real)
  {
    p < PortMin as real || p > PortMax as real
  }

  /** `!name || !ip || port === undefined` */
  predicate MissingRequired(body: DeviceBody)
  {
    !Truthy(body.name) || !Truthy(body.ip) || body.port.None?
  }

  /** The document `createDevice` builds: `status || "active"` and `last_active: new Date()`. */
  function CreatedDraft(body: DeviceBody, now: Time): Draft
    requires !MissingRequired(body)
  {
    NewDocument(body.name.value, body.ip.value, body.port.value,
                Some(if Truthy(body.status) then body.status.value else "active"),
                Some(now), now)
  }

  /**
   * `createDevice`. Missing fields and an out-of-range port are rejected
   * with 400 before anything is stored; a document that then fails the
   * schema is rejected by `save()` (caught as 500); otherwise exactly one
   * record is added under a fresh id and no existing record changes.
   */
  method CreateDevice(store: DeviceCollection, body: DeviceBody, now: Time) returns (r: Response<Stored>)
    requires store.Valid()
    modifies store
    ensures store.Valid()
    ensures MissingRequired(body) ==>
      r == BadRequest(RequiredMessage) && store.docs == old(store.docs)
    ensures !MissingRequired(body) && PortOutOfRange(body.port.value) ==>
      r == BadRequest(PortRangeMessage) && store.docs == old(store.docs)
    ensures !MissingRequired(body) && !PortOutOfRange(body.port.value) && Validate(CreatedDraft(body, now)).None? ==>
      r == ServerError(InvalidMessage) && store.docs == old(store.docs)
    ensures r.Created? <==>
      !MissingRequired(body) && !PortOutOfRange(body.port.value) && Validate(CreatedDraft(body, now)).Some?
    ensures r.Code() == 400 <==> MissingRequired(body) || PortOutOfRange(body.port.value)
    ensures r.Created? ==>
      && r.value.device == Validate(CreatedDraft(body, now)).value
      && r.value.id !in old(store.docs)
      && store.docs == old(store.docs)[r.value.id := r.value.device]
    ensures r.Created? ==>
      var d := r.value.device;
      && d.name == Trim(body.name.value) && d.ip == Trim(body.ip.value)
      && d.port as real == body.port.value
      && d.status == (if Truthy(body.status) then ParseStatus(body.status.value).value else Active)
      && !d.attackers && d.lastActive == now
  {
    if MissingRequired(body) {
      return BadRequest(RequiredMessage);
    }
    if PortOutOfRange(body.port.value) {
      return BadRequest(PortRangeMessage);
    }
    var draft := CreatedDraft(body, now);
    var checked := Validate(draft);
    if checked.None? {
      return ServerError(InvalidMessage);
    }
    var d := checked.value;
    assert d.status == (if Truthy(body.status) then ParseStatus(body.status.value).value else Active);
    TrimmedIsFixed(body.name.value);
    TrimmedIsFixed(body.ip.value);
    assert WellFormed(d);
    // the hook does not fire here: `attackers` only took its default
    var id := store.Insert(d);
    r := Created(Stored(id, d));
  }

  /** `getAllDevices`: every stored device; nothing changes. */
  method GetAllDevices(store: DeviceCollection) returns (r: Response<map<DeviceId, Device>>)
    ensures r.Ok?
    ensures forall id :: id in r.value <==> id in store.docs
    ensures forall id :: id in r.value ==> r.value[id] == store.docs[id]
  {
    r := Ok(store.docs);
  }

  /** `getDeviceById`: the device with that id, or 404; nothing changes. */
  method GetDeviceById(store: DeviceCollection, id: DeviceId) returns (r: Response<Device>)
    ensures r.Ok? || r == NotFound(NotFoundMessage)
    ensures r.Ok? <==> id in store.docs
    ensures r.Ok? ==> r.value == store.docs[id]
  {
    var found := store.FindById(id);
    if found.None? {
      return NotFound(NotFoundMessage);
    }
    r := Ok(found.value);
  }

  /**
   * The document `updateDevice` holds in memory just before `save()`: name
   * and ip replaced when truthy (through the trim setter), port when
   * defined, status when truthy, and `last_active` always set to now.
   */
  function Assigned(d: Device, body: DeviceBody, now: Time): Draft
  {
    Draft(if Truthy(body.name) then Trim(body.name.value) else d.name,
          if Truthy(body.ip) then Trim(body.ip.value) else d.ip,
          if body.port.Some? then body.port.value else d.port as real,
          if Truthy(body.status) then body.status.value else StatusName(d.status),
          d.attackers,
          now)
  }

  /**
   * `updateDevice`. An absent id is a 404 and an out-of-range port a 400;
   * in both cases, and when `save()` rejects the document, nothing is
   * persisted, not even names already assigned in memory. Otherwise only
   * that record changes: the given fields are overwritten, the others kept,
   * and `last_active` is refreshed.
   */
  method UpdateDevice(store: DeviceCollection, id: DeviceId, body: DeviceBody, now: Time)
    returns (r: Response<Device>)
    requires store.Valid()
    modifies store
    ensures store.Valid()
    ensures id !in old(store.docs) ==>
      r == NotFound(NotFoundMessage) && store.docs == old(store.docs)
    ensures id in old(store.docs) && body.port.Some? && PortOutOfRange(body.port.value) ==>
      r == BadRequest(PortRangeMessage) && store.docs == old(store.docs)
    ensures id in old(store.docs) && !(body.port.Some? && PortOutOfRange(body.port.value))
            && Validate(Assigned(old(store.docs)[id], body, now)).None? ==>
      r == ServerError(InvalidMessage) && store.docs == old(store.docs)
    ensures r.Ok? <==>
      && id in old(store.docs) && !(body.port.Some? && PortOutOfRange(body.port.value))
      && Validate(Assigned(old(store.docs)[id], body, now)).Some?
    ensures r.Ok? ==>
      r.value == Validate(Assigned(old(store.docs)[id], body, now)).value
      && store.docs == old(store.docs)[id := r.value]
    ensures r.Ok? ==>
      var was := old(store.docs)[id];
      && r.value.name == (if Truthy(body.name) then Trim(body.name.value) else was.name)
      && r.value.ip == (if Truthy(body.ip) then Trim(body.ip.value) else was.ip)
      && r.value.port as real == (if body.port.Some? then body.port.value else was.port as real)
      && r.value.status == (if Truthy(body.status) then ParseStatus(body.status.value).value else was.status)
      && r.value.attackers == was.attackers
      && r.value.lastActive == now
  {
    var found := store.FindById(id);
    if found.None? {
      return NotFound(NotFoundMessage);
    }
    var d := found.value;
    var doc := ToDraft(d);
    if Truthy(body.name) {
      doc := doc.(name := Trim(body.name.value));
    }
    if Truthy(body.ip) {
      doc := doc.(ip := Trim(body.ip.value));
    }
    if body.port.Some? {
      if PortOutOfRange(body.port.value) {
        return BadRequest(PortRangeMessage);
      }
      doc := doc.(port := body.port.value);
    }
    if Truthy(body.status) {
      doc := doc.(status := body.status.value);
    }
    doc := doc.(lastActive := now);
    assert doc == Assigned(d, body, now);
    var checked := Validate(doc);
    if checked.None? {
      return ServerError(InvalidMessage);
    }
    UpdatedFields(d, body, now);
    // `attackers` was not assigned, so the pre-save hook leaves the document alone
    var saved := store.Save(id, checked.value, false, now);
    r := Ok(saved);
  }

  /**
   * What a successful update stores: the truthy name, ip and status (the
   * strings trimmed) and the defined port replace the old values, every
   * other field is kept, `last_active` is now, and the result is again a
   * well-formed device.
   */
  lemma UpdatedFields(d: Device, body: DeviceBody, now: Time)
    requires WellFormed(d)
    requires Validate(Assigned(d, body, now)).Some?
    ensures var v := Validate(Assigned(d, body, now)).value;
      && WellFormed(v)
      && v.name == (if Truthy(body.name) then Trim(body.name.value) else d.name)
      && v.ip == (if Truthy(body.ip) then Trim(body.ip.value) else d.ip)
      && v.port as real == (if body.port.Some? then body.port.value else d.port as real)
      && v.status == (if Truthy(body.status) then ParseStatus(body.status.value).value else d.status)
      && v.attackers == d.attackers
      && v.lastActive == now
  {
    if Truthy(body.name) { TrimmedIsFixed(body.name.value); }
    if Truthy(body.ip) { TrimmedIsFixed(body.ip.value); }
    StatusRoundTrip(d.status);
  }

  /** An update with an empty body always succeeds and only refreshes `last_active`. */
  lemma EmptyUpdateOnlyTouches(d: Device, now: Time)
    requires WellFormed(d)
    ensures Validate(Assigned(d, DeviceBody(None, None, None, None), now)) == Some(d.(lastActive := now))
  {
    RevalidateStored(d);
    assert Assigned(d, DeviceBody(None, None, None, None), now) == ToDraft(d).(lastActive := now);
  }

  /** `deleteDevice`: removes exactly that record, or answers 404 and changes nothing. */
  method DeleteDevice(store: DeviceCollection, id: DeviceId) returns (r: Response<string>)
    requires store.Valid()
    modifies store
    ensures store.Valid()
    ensures id in old(store.docs) ==> r == Ok(DeletedMessage) && store.docs == old(store.docs) - {id}
    ensures id !in old(store.docs) ==> r == NotFound(NotFoundMessage) && store.docs == old(store.docs)
    ensures r.Code() == (if id in old(store.docs) then 200 else 404)
  {
    var removed := store.FindByIdAndDelete(id);
    if removed.None? {
      return NotFound(NotFoundMessage);
    }
    r := Ok(DeletedMessage);
  }
}
