/** The HTTP read of a device's last state (`GetDeviceState` in
    get_device_state_handler.go). `readState` is the database's
    GetDeviceState for a device id and action name. */
module GetDeviceStateHttp {
  import opened Wrappers
  import opened GoStrconv
  import opened Model
  import opened Http

  /** GetDeviceState's result: the state text, or an error. */
  datatype StateRead = StateFound(state: string) | StateError(err: DbError)

  /** The store query made (if any) and what was written. */
  datatype ReadOutcome = ReadOutcome(query: Option<(int, string)>, response: Response)

  /** GetDeviceState, given the `device_id` and `action_name` path values. */
  function GetDeviceState(
    deviceIdStr: string, actionName: string, readState: (int, string) -> StateRead): (o: ReadOutcome)
    ensures o.query.None? <==> Atoi(deviceIdStr).None?
    ensures o.query.None? ==>
      o.response.Status() == StatusBadRequest && o.response.body == "Invalid device ID\n"
    ensures o.query.Some? ==> o.query.value == (Atoi(deviceIdStr).value, actionName)
    ensures o.query.Some? ==>
      match readState(o.query.value.0, o.query.value.1)
      case StateFound(state) =>
        o.response.Status() == StatusOK && o.response.body == state + "\n"
      case StateError(ErrNoRows) =>
        o.response.Status() == StatusNotFound && o.response.body == "Device state not found\n"
      case StateError(OtherError) =>
        o.response.Status() == StatusInternalServerError && o.response.body == "Internal server error\n"
  {
    match Atoi(deviceIdStr)
    case None => ReadOutcome(None, Error(Unwritten, "Invalid device ID", StatusBadRequest))
    case Some(deviceId) =>
      var response :=
        match readState(deviceId, actionName)
        case StateError(ErrNoRows) => Error(Unwritten, "Device state not found", StatusNotFound)
        case StateError(OtherError) => Error(Unwritten, "Internal server error", StatusInternalServerError)
        case StateFound(state) => Print(Unwritten, state + "\n");
      ReadOutcome(Some((deviceId, actionName)), response)
  }

  /** Whatever the store holds for (id, action), a client asking with the
      id's decimal text reads it back: the body minus its final newline is
      the stored state, and an answer is 200 exactly when the store found a
      state. */
  lemma ReadBackStoredState(deviceId: int, actionName: string, readState: (int, string) -> StateRead)
    requires InInt64(deviceId)
    ensures var o := GetDeviceState(Itoa(deviceId), actionName, readState);
      && o.query == Some((deviceId, actionName))
      && (o.response.Status() == StatusOK <==> readState(deviceId, actionName).StateFound?)
      && (readState(deviceId, actionName).StateFound? ==>
            o.response.body[..|o.response.body| - 1] == readState(deviceId, actionName).state)
  {
    AtoiItoa(deviceId);
    var o := GetDeviceState(Itoa(deviceId), actionName, readState);
    if readState(deviceId, actionName).StateFound? {
      var state := readState(deviceId, actionName).state;
      assert o.response.body == state + "\n";
      assert (state + "\n")[..|state|] == state;
    }
  }
}
