/** The legacy state-topic handler (`GetDeviceStateHandler` in
    device_post.go): for a topic containing `/state` it stores the raw
    payload under the text before the first `/state`. */
module DevicePost {
  import opened GoStrings
  import opened Model

  const StateMarker: string := "/state"

  /** The outcome for one message: ignored (no `/state` in the topic), or
      one call of UpdateDeviceState with a UUID and the payload text, which
      either failed (processing ends without the success log) or succeeded. */
  datatype PostOutcome =
    | Ignored
    | StoreFailed(uuid: string, state: string)
    | Stored(uuid: string, state: string)

  /** GetDeviceStateHandler. `storeFails` is UpdateDeviceState's error
      result for a (UUID, payload) call. Go's Split always yields at least one
      piece, so the "Invalid topic format" branch cannot be taken and the
      first piece always exists. */
  function GetDeviceStateHandler(msg: Message, storeFails: (string, string) -> bool): (o: PostOutcome)
    ensures o.Ignored? <==> !Contains(msg.topic, StateMarker)
    ensures !o.Ignored? ==>
      && HasPrefix(msg.topic, o.uuid)
      && OccursAt(msg.topic, StateMarker, |o.uuid|)
      && forall j | 0 <= j < |o.uuid| :: !OccursAt(msg.topic, StateMarker, j)
    ensures !o.Ignored? ==> o.state == BytesToString(msg.payload)
    ensures o.Stored? <==> !o.Ignored? && !storeFails(o.uuid, o.state)
  {
    if Contains(msg.topic, StateMarker) then
      var parts := Split(msg.topic, StateMarker);
      SplitFirstPiece(msg.topic, StateMarker);
      var uuid := parts[0];
      var payloadStr := BytesToString(msg.payload);
      if storeFails(uuid, payloadStr) then StoreFailed(uuid, payloadStr)
      else Stored(uuid, payloadStr)
    else Ignored
  }

  /** A device publishing its state on `<uuid>/state...` gets that payload
      stored under its UUID, unchanged, whenever the UUID itself does not
      contain `/state`. */
  lemma StatePushStoredUnderUuid(
    uuid: string, suffix: string, payload: seq<byte>, storeFails: (string, string) -> bool)
    requires !Contains(uuid, StateMarker)
    ensures var o := GetDeviceStateHandler(Message(uuid + StateMarker + suffix, payload), storeFails);
      && !o.Ignored?
      && o.uuid == uuid
      && StringToBytes(o.state) == payload
  {
    var topic := uuid + StateMarker + suffix;
    assert topic[|uuid|..|uuid| + |StateMarker|] == StateMarker;
    assert OccursAt(topic, StateMarker, |uuid|);
    assert Contains(topic, StateMarker);
    var o := GetDeviceStateHandler(Message(topic, payload), storeFails);
    forall j | 0 <= j < |uuid| ensures !OccursAt(topic, StateMarker, j) {
      NoMarkerBefore(uuid, suffix, j);
    }
    assert !(|o.uuid| < |uuid|);
    assert !(|uuid| < |o.uuid|);
    assert o.uuid == topic[..|uuid|] == uuid;
    BytesStringRoundTrip(payload);
  }

  /** In `uuid + "/state" + suffix`, no `/state` starts inside a UUID that
      has none: one lying inside the UUID would be an occurrence in it, and
      one straddling its end would put the marker's `/` after its start. */
  lemma NoMarkerBefore(uuid: string, suffix: string, j: nat)
    requires !Contains(uuid, StateMarker)
    requires j < |uuid|
    ensures !OccursAt(uuid + StateMarker + suffix, StateMarker, j)
  {
    var topic := uuid + StateMarker + suffix;
    if j + |StateMarker| <= |uuid| {
      assert topic[j..j + |StateMarker|] == uuid[j..j + |StateMarker|];
      assert !OccursAt(uuid, StateMarker, j);
    } else {
      var k := |uuid| - j;
      assert 0 < k < |StateMarker|;
      assert topic[j..j + |StateMarker|][k] == topic[|uuid|] == '/';
      assert StateMarker[k] != '/';
    }
  }
}
