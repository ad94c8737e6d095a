/** The records the handlers exchange: MQTT messages, decoded JSON, the
    device record, the state update passed from the MQTT side to the event
    stream, and an MQTT publish. */
module Model {

  newtype byte = b: int | 0 <= b < 256

  /** An incoming MQTT message: its topic and its raw payload bytes. */
  datatype Message = Message(topic: string, payload: seq<byte>)

  /** A value inside a decoded JSON object, as far as the handlers look at
      it: a string, or anything else (number, boolean, null, array, object). */
  datatype JsonValue = JString(s: string) | JOther

  /** A payload decoded into a Go `map[string]interface{}`. */
  type JsonObject = map<string, JsonValue>

  /** A scalar placed in a map that is handed to `json.Marshal`. */
  datatype Scalar = SInt(i: int) | SString(s: string)

  /** The fields of `model.Device`; the device type is the text of a
      `model.DeviceType`. */
  datatype Device = Device(
    id: int,
    uuid: string,
    name: string,
    templateActions: string,
    customActions: string,
    deviceType: string,
    actionsTemplateId: int)

  /** `model.Update`: one device's named action now holds `state`. */
  datatype Update = Update(deviceId: int, actionName: string, state: string)

  /** One call of the MQTT client's Publish. The payload is given as text:
      the client sends the bytes of a string payload unchanged. */
  datatype Publish = Publish(topic: string, qos: nat, retained: bool, payload: string)

  /** The database errors the handlers tell apart: `sql.ErrNoRows`, and any
      other error. */
  datatype DbError = ErrNoRows | OtherError

  /** Go's `string(b)` conversion: the same bytes, read as text. */
  function BytesToString(b: seq<byte>): (s: string)
    ensures |s| == |b|
    ensures forall i | 0 <= i < |b| :: s[i] as int == b[i] as int
  {
    seq(|b|, i requires 0 <= i < |b| => b[i] as int as char)
  }

  /** Go's `[]byte(s)` conversion for text whose characters are bytes. */
  function StringToBytes(s: string): (b: seq<byte>)
    requires forall i | 0 <= i < |s| :: s[i] as int < 256
    ensures |b| == |s|
  {
    seq(|s|, i requires 0 <= i < |s| => s[i] as int as byte)
  }

  /** Converting payload bytes to text loses nothing. */
  lemma BytesStringRoundTrip(b: seq<byte>)
    ensures StringToBytes(BytesToString(b)) == b
  {
  }
}
