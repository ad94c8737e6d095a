/** The MQTT state-message normaliser (`parseMessage`) and the handler that
    resolves the device and passes one update on to the event stream
    (`StateUpdatedHandler`). JSON decoding is a parameter: `decode` is what
    `json.Unmarshal` into a `map[string]interface{}` yields for a payload,
    None when it reports an error. */
module StateUpdated {
  import opened Wrappers
  import opened GoStrings
  import opened Model

  /** The key naming the action; note the capital A. */
  const ActionNameKey: string := "Action_name"

  /** The triple `parseMessage` returns. */
  datatype Parsed = Parsed(uuid: string, actionName: string, state: string)

  /** What `parseMessage` returns on every failure. */
  const NoParse: Parsed := Parsed("", "", "")

  /** `obj[key].(string)`: the string under `key`, None when the key is
      missing or holds anything but a string. */
  function StringField(obj: JsonObject, key: string): (r: Option<string>)
    ensures r.Some? <==> key in obj && obj[key].JString?
    ensures r.Some? ==> obj[key] == JString(r.value)
  {
    if key in obj && obj[key].JString? then Some(obj[key].s) else None
  }

  /** The conditions under which `parseMessage` succeeds: at least two topic
      levels, a payload that decodes to an object, a string under
      `Action_name`, and a string under the key that string names. */
  predicate WellFormed(msg: Message, decode: seq<byte> -> Option<JsonObject>) {
    && |Split(msg.topic, "/")| >= 2
    && decode(msg.payload).Some?
    && StringField(decode(msg.payload).value, ActionNameKey).Some?
    && var action := StringField(decode(msg.payload).value, ActionNameKey).value;
       StringField(decode(msg.payload).value, action).Some?
  }

  /** parseMessage: all three components of a well-formed message, three
      empty strings otherwise, never a mix. */
  function ParseMessage(msg: Message, decode: seq<byte> -> Option<JsonObject>): (r: Parsed)
    ensures !WellFormed(msg, decode) ==> r == NoParse
    ensures WellFormed(msg, decode) ==>
      && r.uuid == Split(msg.topic, "/")[1]
      && StringField(decode(msg.payload).value, ActionNameKey) == Some(r.actionName)
      && StringField(decode(msg.payload).value, r.actionName) == Some(r.state)
  {
    var topicParts := Split(msg.topic, "/");
    if |topicParts| < 2 then NoParse
    else
      var uuid := topicParts[1];
      match decode(msg.payload)
      case None => NoParse
      case Some(jsonData) =>
        match StringField(jsonData, ActionNameKey)
        case None => NoParse
        case Some(actionName) =>
          match StringField(jsonData, actionName)
          case None => NoParse
          case Some(stateValue) => Parsed(uuid, actionName, stateValue)
  }

  /** What one run of StateUpdatedHandler does: the UUID it looks up, and
      the update it sends on the channel, if any. */
  datatype Delivery = Delivery(lookedUp: string, sent: Option<Update>)

  /** StateUpdatedHandler. `lookup` is GetDeviceIDByUUID, None for an error.
      The lookup is made even when parsing failed (with the empty UUID), and
      exactly one update is sent when it succeeds. */
  function StateUpdatedHandler(
    msg: Message,
    decode: seq<byte> -> Option<JsonObject>,
    lookup: string -> Option<int>): (d: Delivery)
    ensures d.lookedUp == (if WellFormed(msg, decode) then Split(msg.topic, "/")[1] else "")
    ensures d.sent.Some? <==> lookup(d.lookedUp).Some?
    ensures d.sent.Some? ==> d.sent.value.deviceId == lookup(d.lookedUp).value
    ensures d.sent.Some? ==>
      var p := ParseMessage(msg, decode);
      d.sent.value.actionName == p.actionName && d.sent.value.state == p.state
  {
    var p := ParseMessage(msg, decode);
    match lookup(p.uuid)
    case None => Delivery(p.uuid, None)
    case Some(deviceId) => Delivery(p.uuid, Some(Update(deviceId, p.actionName, p.state)))
  }

  /** The object a device publishes for one state change. */
  function StatePayload(actionName: string, state: string): JsonObject {
    map[ActionNameKey := JString(actionName), actionName := JString(state)]
  }

  /** Round trip: a message whose topic has the device UUID as its second
      level and whose payload names the action and carries the state is
      normalised back into exactly that UUID, action and state, however many
      levels follow. */
  lemma ParseComposed(
    namespace: string, uuid: string, rest: seq<string>,
    actionName: string, state: string,
    payload: seq<byte>, decode: seq<byte> -> Option<JsonObject>)
    requires '/' !in namespace && '/' !in uuid
    requires forall p | p in rest :: '/' !in p
    requires decode(payload) == Some(StatePayload(actionName, state))
    requires actionName != ActionNameKey
    ensures ParseMessage(Message(Join([namespace, uuid] + rest, "/"), payload), decode)
         == Parsed(uuid, actionName, state)
  {
    var topic := Join([namespace, uuid] + rest, "/");
    TopicLevels(namespace, uuid, rest);
    StatePayloadFields(actionName, state);
    assert WellFormed(Message(topic, payload), decode);
  }

  /** A topic built from `/`-free levels splits back into them, with the
      UUID as its second level. */
  lemma TopicLevels(namespace: string, uuid: string, rest: seq<string>)
    requires '/' !in namespace && '/' !in uuid
    requires forall p | p in rest :: '/' !in p
    ensures var parts := Split(Join([namespace, uuid] + rest, "/"), "/");
      |parts| >= 2 && parts[1] == uuid
  {
    var parts := [namespace, uuid] + rest;
    forall p | p in parts ensures '/' !in p {
    }
    SplitJoin(parts, '/');
  }

  /** The state payload names the action under `Action_name` and carries the
      state under the action's name. */
  lemma StatePayloadFields(actionName: string, state: string)
    requires actionName != ActionNameKey
    ensures StringField(StatePayload(actionName, state), ActionNameKey) == Some(actionName)
    ensures StringField(StatePayload(actionName, state), actionName) == Some(state)
  {
  }

  /** A topic with a single level (no `/`) never parses. */
  lemma SingleLevelTopicRejected(msg: Message, decode: seq<byte> -> Option<JsonObject>)
    requires '/' !in msg.topic
    ensures ParseMessage(msg, decode) == NoParse
  {
    SplitNoSeparator(msg.topic, '/');
  }

  /** An action name under `Action_name` that is not a string, or a state
      under the action's key that is not a string, rejects the message. */
  lemma NonStringFieldRejected(msg: Message, decode: seq<byte> -> Option<JsonObject>)
    requires decode(msg.payload).Some?
    requires var obj := decode(msg.payload).value;
      || (ActionNameKey in obj && obj[ActionNameKey] == JOther)
      || (ActionNameKey in obj && obj[ActionNameKey].JString? && var a := obj[ActionNameKey].s;
          a in obj && obj[a] == JOther)
    ensures ParseMessage(msg, decode) == NoParse
  {
  }

  /** A malformed message is not dropped before the lookup: the empty UUID
      is looked up, and if some device is registered under it, an update
      with an empty action name and state is sent for that device. */
  lemma MalformedMessageStillLooksUp(
    msg: Message, decode: seq<byte> -> Option<JsonObject>, lookup: string -> Option<int>)
    requires !WellFormed(msg, decode)
    ensures StateUpdatedHandler(msg, decode, lookup).lookedUp == ""
    ensures lookup("").None? ==> StateUpdatedHandler(msg, decode, lookup).sent.None?
    ensures lookup("").Some? ==>
      StateUpdatedHandler(msg, decode, lookup).sent == Some(Update(lookup("").value, "", ""))
  {
  }

  /** A well-formed message for a known device yields exactly one update
      carrying the looked-up id and the parsed action and state. */
  lemma WellFormedKnownDeviceDelivers(
    namespace: string, uuid: string, rest: seq<string>,
    actionName: string, state: string,
    payload: seq<byte>, decode: seq<byte> -> Option<JsonObject>,
    lookup: string -> Option<int>)
    requires '/' !in namespace && '/' !in uuid
    requires forall p | p in rest :: '/' !in p
    requires decode(payload) == Some(StatePayload(actionName, state))
    requires actionName != ActionNameKey
    requires lookup(uuid).Some?
    ensures StateUpdatedHandler(Message(Join([namespace, uuid] + rest, "/"), payload), decode, lookup)
         == Delivery(uuid, Some(Update(lookup(uuid).value, actionName, state)))
  {
    ParseComposed(namespace, uuid, rest, actionName, state, payload, decode);
  }
}
