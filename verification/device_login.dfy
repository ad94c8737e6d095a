/** Device login (`HandleDeviceLogin`): decode the device record, look up
    the action template for its device type, register the device and answer
    on the login response topic. `decode` is `json.Unmarshal` into a
    `model.Device` (None on error), `scanTemplate` is the row scan inside
    FetchTemplateActions for a device type, and `registerFails` is
    RegisterDevice's error result. */
module DeviceLogin {
  import opened Wrappers
  import opened Model

  /** The template id FetchTemplateActions returns, and its error (None for
      a nil error). */
  datatype TemplateLookup = TemplateLookup(id: int, err: Option<DbError>)

  /** What scanning the template row can give: the id of the matching row,
      no row, or any other failure. */
  datatype TemplateScan = TemplateRow(id: int) | TemplateNoRow | TemplateScanFailed

  /** FetchTemplateActions: `(-1, ErrNoRows)` when no template matches,
      `(-1, err)` for any other failure, `(id, nil)` otherwise. */
  function FetchTemplateActions(scan: TemplateScan): (r: TemplateLookup)
    ensures r.err.None? <==> scan.TemplateRow?
    ensures r.err == Some(ErrNoRows) <==> scan.TemplateNoRow?
    ensures r.err.Some? ==> r.id == -1
    ensures scan.TemplateRow? ==> r.id == scan.id
  {
    match scan
    case TemplateRow(id) => TemplateLookup(id, None)
    case TemplateNoRow => TemplateLookup(-1, Some(ErrNoRows))
    case TemplateScanFailed => TemplateLookup(-1, Some(OtherError))
  }

  /** The effects of one login: the record handed to RegisterDevice (if
      any), whether that call failed (only logged), and the response
      publish (if any). */
  datatype LoginOutcome = LoginOutcome(
    registered: Option<Device>,
    registrationFailed: bool,
    response: Option<Publish>)

  /** The handler's template decision: a `-1` id aborts unless the error is
      ErrNoRows; any other id is kept, whatever the error. */
  predicate AbortsOn(lookup: TemplateLookup) {
    lookup.id == -1 && lookup.err != Some(ErrNoRows)
  }

  /** The login response: the configured prefix followed directly by the
      UUID, payload "y", QoS 0, not retained. */
  function LoginResponse(responsePrefix: string, uuid: string): Publish {
    Publish(responsePrefix + uuid, 0, false, "y")
  }

  /** HandleDeviceLogin. */
  function HandleDeviceLogin(
    msg: Message,
    decode: seq<byte> -> Option<Device>,
    scanTemplate: string -> TemplateScan,
    registerFails: Device -> bool,
    responsePrefix: string): (o: LoginOutcome)
    ensures o.response.Some? <==> o.registered.Some?
    ensures o.registered.Some? <==>
      decode(msg.payload).Some?
      && !AbortsOn(FetchTemplateActions(scanTemplate(decode(msg.payload).value.deviceType)))
    ensures o.registered.Some? ==>
      var device := decode(msg.payload).value;
      && o.registered.value == device.(actionsTemplateId := FetchTemplateActions(scanTemplate(device.deviceType)).id)
      && o.response.value.topic == responsePrefix + device.uuid
      && o.response.value.payload == "y"
      && o.response.value.qos == 0
      && !o.response.value.retained
    ensures o.registrationFailed ==> o.registered.Some?
    ensures o.registered.Some? ==> o.registrationFailed == registerFails(o.registered.value)
  {
    match decode(msg.payload)
    case None => LoginOutcome(None, false, None)
    case Some(device) =>
      var lookup := FetchTemplateActions(scanTemplate(device.deviceType));
      if AbortsOn(lookup) then LoginOutcome(None, false, None)
      else
        var record := device.(actionsTemplateId := lookup.id);
        LoginOutcome(Some(record), registerFails(record), Some(LoginResponse(responsePrefix, record.uuid)))
  }

  /** The login decision for each shape the template lookup can take: a
      matching row registers the device with that row's id (a row whose id
      is -1 is taken for a failure and aborts), an unknown device type still
      registers with id -1 and responds, and any other failure aborts with
      neither registration nor response. */
  lemma LoginByTemplateScan(
    msg: Message, decode: seq<byte> -> Option<Device>,
    scanTemplate: string -> TemplateScan, registerFails: Device -> bool, responsePrefix: string)
    requires decode(msg.payload).Some?
    ensures var device := decode(msg.payload).value;
      var o := HandleDeviceLogin(msg, decode, scanTemplate, registerFails, responsePrefix);
      match scanTemplate(device.deviceType)
      case TemplateRow(id) =>
        if id == -1 then o == LoginOutcome(None, false, None)
        else o.registered == Some(device.(actionsTemplateId := id))
             && o.response == Some(LoginResponse(responsePrefix, device.uuid))
      case TemplateNoRow =>
        o.registered == Some(device.(actionsTemplateId := -1))
        && o.response == Some(LoginResponse(responsePrefix, device.uuid))
      case TemplateScanFailed => o == LoginOutcome(None, false, None)
  {
  }

  /** A payload that does not decode causes neither registration nor
      response. */
  lemma UndecodableLoginIgnored(
    msg: Message, decode: seq<byte> -> Option<Device>,
    scanTemplate: string -> TemplateScan, registerFails: Device -> bool, responsePrefix: string)
    requires decode(msg.payload).None?
    ensures HandleDeviceLogin(msg, decode, scanTemplate, registerFails, responsePrefix)
         == LoginOutcome(None, false, None)
  {
  }

  /** A failed registration is only logged: the response is published
      exactly as it is after a successful one. */
  lemma RegistrationFailureStillResponds(
    msg: Message, decode: seq<byte> -> Option<Device>,
    scanTemplate: string -> TemplateScan,
    registerFails1: Device -> bool, registerFails2: Device -> bool, responsePrefix: string)
    ensures var o1 := HandleDeviceLogin(msg, decode, scanTemplate, registerFails1, responsePrefix);
      var o2 := HandleDeviceLogin(msg, decode, scanTemplate, registerFails2, responsePrefix);
      o1.registered == o2.registered && o1.response == o2.response
  {
  }
}
