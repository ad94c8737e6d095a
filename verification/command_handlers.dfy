/** The two HTTP command handlers that republish a dashboard command on
    MQTT: `ToggleHandler` (topic `toggle/<uuid>`) and `NumberInputHandler`
    (topic `number_input/<uuid>/<action>`). `getUuid` is GetDeviceUUID,
    whose error neither handler looks at, and `publishFails` is whether the
    publish token reports an error. */
module CommandHandlers {
  import opened Wrappers
  import opened GoStrings
  import opened GoStrconv
  import opened Model
  import opened Http

  /** GetDeviceUUID's result: the UUID it returns and whether it also
      returned an error. */
  datatype UuidLookup = UuidLookup(uuid: string, failed: bool)

  /** The publish a command handler made (if any) and what it wrote. */
  datatype CommandOutcome = CommandOutcome(published: Option<Publish>, response: Response)

  const InvalidDeviceId: string := "Invalid device ID"
  const SendFailed: string := "Failed to send command"

  /** Publish `p` and answer 500 if the publish fails; write nothing on
      success. */
  function PublishCommand(p: Publish, publishFails: Publish -> bool): (o: CommandOutcome)
    ensures o.published == Some(p)
    ensures publishFails(p) ==> o.response.Status() == StatusInternalServerError
    ensures !publishFails(p) ==> o.response == Unwritten
  {
    if publishFails(p) then CommandOutcome(Some(p), Error(Unwritten, SendFailed, StatusInternalServerError))
    else CommandOutcome(Some(p), Unwritten)
  }

  /** The toggle topic for a device. */
  function ToggleTopic(uuid: string): string {
    "toggle/" + uuid
  }

  /** ToggleHandler, given the `device_id` and `action_name` path values. */
  function ToggleHandler(
    deviceIdStr: string, actionName: string,
    getUuid: int -> UuidLookup, publishFails: Publish -> bool): (o: CommandOutcome)
    ensures o.published.None? <==> Atoi(deviceIdStr).None?
    ensures o.published.None? ==>
      o.response.Status() == StatusBadRequest && o.response.body == InvalidDeviceId + "\n"
    ensures o.published.Some? ==>
      var p := o.published.value;
      && p.topic == "toggle/" + getUuid(Atoi(deviceIdStr).value).uuid
      && p.payload == actionName
      && p.qos == 0
      && !p.retained
      && (o.response.Status() == StatusInternalServerError <==> publishFails(p))
      && (!publishFails(p) ==> o.response == Unwritten)
  {
    match Atoi(deviceIdStr)
    case None => CommandOutcome(None, Error(Unwritten, InvalidDeviceId, StatusBadRequest))
    case Some(deviceId) =>
      var deviceUuid := getUuid(deviceId).uuid;
      PublishCommand(Publish(ToggleTopic(deviceUuid), 0, false, actionName), publishFails)
  }

  /** The number-input topic for a device's action. */
  function NumberInputTopic(uuid: string, actionName: string): string {
    "number_input/" + uuid + "/" + actionName
  }

  /** NumberInputHandler, given the parsed form (None when ParseForm fails). */
  function NumberInputHandler(
    form: Option<Form>, getUuid: int -> UuidLookup, publishFails: Publish -> bool): (o: CommandOutcome)
    ensures form.None? ==>
      o.published.None? && o.response.Status() == StatusBadRequest
      && o.response.body == "Error parsing form\n"
    ensures form.Some? ==>
      (o.published.None? <==> Atoi(FormValue(form.value, "deviceID")).None?)
    ensures form.Some? && o.published.None? ==>
      o.response.Status() == StatusBadRequest && o.response.body == InvalidDeviceId + "\n"
    ensures o.published.Some? ==>
      var f := form.value;
      var p := o.published.value;
      && p.topic == "number_input/" + getUuid(Atoi(FormValue(f, "deviceID")).value).uuid
                    + "/" + FormValue(f, "actionName")
      && p.payload == FormValue(f, "inputValue")
      && p.qos == 0
      && !p.retained
      && (o.response.Status() == StatusInternalServerError <==> publishFails(p))
      && (!publishFails(p) ==> o.response == Unwritten)
  {
    match form
    case None => CommandOutcome(None, Error(Unwritten, "Error parsing form", StatusBadRequest))
    case Some(f) =>
      var deviceIdStr := FormValue(f, "deviceID");
      var actionName := FormValue(f, "actionName");
      var inputValue := FormValue(f, "inputValue");
      match Atoi(deviceIdStr)
      case None => CommandOutcome(None, Error(Unwritten, InvalidDeviceId, StatusBadRequest))
      case Some(deviceId) =>
        var deviceUuid := getUuid(deviceId).uuid;
        PublishCommand(Publish(NumberInputTopic(deviceUuid, actionName), 0, false, inputValue), publishFails)
  }

  /** A dashboard that sends a device's id as its decimal text reaches that
      device: the toggle is published on the topic of the UUID looked up for
      that very id, with the action name as payload. */
  lemma ToggleReachesDevice(
    deviceId: int, actionName: string, getUuid: int -> UuidLookup, publishFails: Publish -> bool)
    requires InInt64(deviceId)
    ensures ToggleHandler(Itoa(deviceId), actionName, getUuid, publishFails).published
         == Some(Publish(ToggleTopic(getUuid(deviceId).uuid), 0, false, actionName))
  {
    AtoiItoa(deviceId);
  }

  /** The toggle topic has exactly two levels, `toggle` and the UUID, when
      the UUID has no `/`: a device subscribed to `toggle/<its uuid>`
      receives it. */
  lemma ToggleTopicLevels(uuid: string)
    requires '/' !in uuid
    ensures Split(ToggleTopic(uuid), "/") == ["toggle", uuid]
  {
    assert ToggleTopic(uuid) == Join(["toggle", uuid], "/");
    SplitJoin(["toggle", uuid], '/');
  }

  /** The number-input topic splits back into `number_input`, the UUID and
      the action name when neither contains `/`. */
  lemma NumberInputTopicLevels(uuid: string, actionName: string)
    requires '/' !in uuid && '/' !in actionName
    ensures Split(NumberInputTopic(uuid, actionName), "/") == ["number_input", uuid, actionName]
  {
    var parts := ["number_input", uuid, actionName];
    assert parts[1..] == [uuid, actionName];
    assert [uuid, actionName][1..] == [actionName];
    assert Join([uuid, actionName], "/") == uuid + "/" + actionName;
    assert NumberInputTopic(uuid, actionName) == Join(parts, "/");
    SplitJoin(["number_input", uuid, actionName], '/');
  }

  /** Neither handler looks at the lookup's error: two lookups that return
      the same UUIDs give the same outcome, failing or not. */
  lemma UuidLookupErrorIgnored(
    deviceIdStr: string, actionName: string, form: Option<Form>,
    getUuid1: int -> UuidLookup, getUuid2: int -> UuidLookup, publishFails: Publish -> bool)
    requires forall id :: getUuid1(id).uuid == getUuid2(id).uuid
    ensures ToggleHandler(deviceIdStr, actionName, getUuid1, publishFails)
         == ToggleHandler(deviceIdStr, actionName, getUuid2, publishFails)
    ensures NumberInputHandler(form, getUuid1, publishFails)
         == NumberInputHandler(form, getUuid2, publishFails)
  {
  }
}
