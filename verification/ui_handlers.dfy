/** The decision logic of the dashboard UI handlers in ui_handlers.go:
    `parseJSONActions`, the id validation and action decoding of
    `DeviceFeaturesHandler`, and `CreateDashboardHandler`, which turns the
    submitted form into positioned dashboard entries. Template rendering is
    not modelled: a handler that gets that far ends in a `Render` outcome.
    `decode` is `json.Unmarshal` of a string into a map, `marshalList` is
    `json.Marshal` of a key's value list (None on error). */
module UiHandlers {
  import opened Wrappers
  import opened GoStrings
  import opened GoStrconv
  import opened Model
  import opened Http

  type Decoder = string -> Option<JsonObject>

  /** parseJSONActions: both decoded objects, or nothing when either string
      fails to decode. */
  function ParseJSONActions(
    templateActions: string, customActions: string, decode: Decoder): (r: Option<(JsonObject, JsonObject)>)
    ensures r.Some? <==> decode(templateActions).Some? && decode(customActions).Some?
    ensures r.Some? ==> r.value.0 == decode(templateActions).value && r.value.1 == decode(customActions).value
  {
    match decode(templateActions)
    case None => None
    case Some(templ) =>
      match decode(customActions)
      case None => None
      case Some(custom) => Some((templ, custom))
  }

  /** How DeviceFeaturesHandler ends: an error response, or the data handed
      to the feature template. */
  datatype FeaturesResult =
    | Failed(response: Response)
    | Render(templateActions: JsonObject, customActions: JsonObject, id: int)

  /** The device fetched (if any) and how the handler ended. */
  datatype FeaturesOutcome = FeaturesOutcome(fetched: Option<int>, result: FeaturesResult)

  /** DeviceFeaturesHandler, given the `id` path value. `fetchDevice` is
      FetchDeviceWithActions (None on error) and `templateLoads` whether the
      feature template parses. */
  function DeviceFeaturesHandler(
    idStr: string, fetchDevice: int -> Option<Device>, templateLoads: bool, decode: Decoder): (o: FeaturesOutcome)
    ensures o.fetched.Some? <==> Atoi(idStr).Some?
    ensures o.fetched.Some? ==> o.fetched.value == Atoi(idStr).value
    ensures idStr == "" ==>
      o.result.Failed? && o.result.response.Status() == StatusBadRequest
      && o.result.response.body == "Device ID parameter is missing\n"
    ensures idStr != "" && Atoi(idStr).None? ==>
      o.result.Failed? && o.result.response.Status() == StatusBadRequest
      && o.result.response.body == "Invalid device ID\n"
    ensures o.fetched.Some? && o.result.Failed? ==>
      o.result.response.Status() == StatusInternalServerError
    ensures o.result.Render? <==>
      && o.fetched.Some?
      && fetchDevice(o.fetched.value).Some?
      && templateLoads
      && var device := fetchDevice(o.fetched.value).value;
         ParseJSONActions(device.templateActions, device.customActions, decode).Some?
    ensures o.result.Render? ==>
      var device := fetchDevice(o.fetched.value).value;
      && o.result.templateActions == decode(device.templateActions).value
      && o.result.customActions == decode(device.customActions).value
      && o.result.id == device.id
  {
    if idStr == "" then
      FeaturesOutcome(None, Failed(Error(Unwritten, "Device ID parameter is missing", StatusBadRequest)))
    else
      match Atoi(idStr)
      case None => FeaturesOutcome(None, Failed(Error(Unwritten, "Invalid device ID", StatusBadRequest)))
      case Some(deviceId) =>
        var result :=
          match fetchDevice(deviceId)
          case None => Failed(Error(Unwritten, "Failed to fetch device details", StatusInternalServerError))
          case Some(device) =>
            if !templateLoads then
              Failed(Error(Unwritten, "Error loading feature template", StatusInternalServerError))
            else
              match ParseJSONActions(device.templateActions, device.customActions, decode)
              case None => Failed(Error(Unwritten, "Failed to parse actions", StatusInternalServerError))
              case Some((templ, custom)) => Render(templ, custom, device.id);
        FeaturesOutcome(Some(deviceId), result)
  }

  /** A page request carrying a device's id as its decimal text passes both
      id checks and fetches that very device. */
  lemma FeaturesFetchesDecimalId(
    deviceId: int, fetchDevice: int -> Option<Device>, templateLoads: bool, decode: Decoder)
    requires InInt64(deviceId)
    ensures var o := DeviceFeaturesHandler(Itoa(deviceId), fetchDevice, templateLoads, decode);
      && o.fetched == Some(deviceId)
      && (o.result.Failed? ==> o.result.response.Status() == StatusInternalServerError)
  {
    AtoiItoa(deviceId);
  }

  const DashboardNameKey: string := "dashboardName"
  const DeviceActionPrefix: string := "device_action_"

  /** model.DeviceInDashboard as the handler fills it: the device id, the
      JSON of the selected actions, and the position on the dashboard. */
  datatype Entry = Entry(deviceId: int, shownActions: string, position: int)

  /** A form key that produces an entry: it starts with `device_action_`
      and the rest is an integer. */
  predicate Accepts(key: string) {
    HasPrefix(key, DeviceActionPrefix) && Atoi(TrimPrefix(key, DeviceActionPrefix)).Some?
  }

  /** A form key that starts with `device_action_` but whose rest is not an
      integer: answered with 400 and skipped. */
  predicate Rejects(key: string) {
    HasPrefix(key, DeviceActionPrefix) && Atoi(TrimPrefix(key, DeviceActionPrefix)).None?
  }

  /** The device id an accepted key names. */
  function KeyDeviceId(key: string): int
    requires Accepts(key)
  {
    Atoi(TrimPrefix(key, DeviceActionPrefix)).value
  }

  /** The accepted keys of `keys`, in order. */
  function Accepted(keys: seq<string>): (acc: seq<string>)
    ensures |acc| <= |keys|
    ensures forall k | k in acc :: k in keys && Accepts(k)
    ensures forall k | k in keys && Accepts(k) :: k in acc
    decreases |keys|
  {
    if |keys| == 0 then []
    else Accepted(keys[..|keys| - 1]) + (if Accepts(keys[|keys| - 1]) then [keys[|keys| - 1]] else [])
  }

  predicate AnyRejected(keys: seq<string>) {
    exists i | 0 <= i < |keys| :: Rejects(keys[i])
  }

  /** The entry list the form's keys produce, taken in `order`: one entry per
      accepted key, at positions 0, 1, 2, ... */
  predicate EntriesFor(form: Form, order: seq<string>, marshalList: seq<string> -> Option<string>, entries: seq<Entry>) {
    var acc := Accepted(order);
    && |entries| == |acc|
    && forall i | 0 <= i < |entries| ::
         && acc[i] in form
         && marshalList(form[acc[i]]).Some?
         && entries[i] == Entry(KeyDeviceId(acc[i]), marshalList(form[acc[i]]).value, i)
  }

  lemma AcceptedSnoc(keys: seq<string>, k: string)
    ensures Accepted(keys + [k]) == Accepted(keys) + (if Accepts(k) then [k] else [])
  {
    assert (keys + [k])[..|keys|] == keys;
  }

  lemma {:induction false} AcceptedMembers(keys: seq<string>)
    ensures forall k :: k in Accepted(keys) <==> k in keys && Accepts(k)
    decreases |keys|
  {
    if |keys| > 0 {
      var init := keys[..|keys| - 1];
      AcceptedMembers(init);
      assert keys == init + [keys[|keys| - 1]];
    }
  }

  /** Extending the keys by a key that is not accepted keeps the entries. */
  lemma EntriesForSkip(form: Form, keys: seq<string>, k: string,
                       marshalList: seq<string> -> Option<string>, entries: seq<Entry>)
    requires forall x | x in keys :: x in form
    requires k in form && !Accepts(k)
    requires EntriesFor(form, keys, marshalList, entries)
    ensures EntriesFor(form, keys + [k], marshalList, entries)
  {
    AcceptedSnoc(keys, k);
  }

  /** Extending the keys by an accepted key whose values encode appends one
      entry at the next position. */
  lemma EntriesForAppend(form: Form, keys: seq<string>, k: string,
                         marshalList: seq<string> -> Option<string>, entries: seq<Entry>)
    requires forall x | x in keys :: x in form
    requires k in form && Accepts(k) && marshalList(form[k]).Some?
    requires EntriesFor(form, keys, marshalList, entries)
    ensures EntriesFor(form, keys + [k], marshalList,
                       entries + [Entry(KeyDeviceId(k), marshalList(form[k]).value, |entries|)])
  {
    AcceptedSnoc(keys, k);
  }

  /** Every accepted key behind an entry list is a form key whose values
      encode. */
  lemma EntriesForEncoded(form: Form, keys: seq<string>,
                          marshalList: seq<string> -> Option<string>, entries: seq<Entry>)
    requires EntriesFor(form, keys, marshalList, entries)
    ensures forall k | k in Accepted(keys) :: k in form && marshalList(form[k]).Some?
  {
    forall k | k in Accepted(keys) ensures k in form && marshalList(form[k]).Some? {
      var j :| 0 <= j < |Accepted(keys)| && Accepted(keys)[j] == k;
    }
  }

  lemma AnyRejectedSnoc(keys: seq<string>, k: string)
    ensures AnyRejected(keys + [k]) <==> AnyRejected(keys) || Rejects(k)
  {
    if AnyRejected(keys) {
      var i :| 0 <= i < |keys| && Rejects(keys[i]);
      assert (keys + [k])[i] == keys[i];
    }
    assert (keys + [k])[|keys|] == k;
  }

  /** The key loop of CreateDashboardHandler over the form's keys in the
      order Go's map iteration produced. It stops at the first accepted key
      whose values fail to encode (`aborted`, with `processed` the index of
      that key); otherwise it examines every key. */
  method CollectEntries(form: Form, order: seq<string>, marshalList: seq<string> -> Option<string>)
    returns (entries: seq<Entry>, w: Response, processed: nat, aborted: bool)
    requires forall k | k in order :: k in form
    ensures processed <= |order|
    ensures !aborted ==> processed == |order|
    ensures aborted ==>
      processed < |order| && Accepts(order[processed]) && marshalList(form[order[processed]]).None?
    ensures forall k | k in Accepted(order[..processed]) :: marshalList(form[k]).Some?
    ensures !aborted ==> EntriesFor(form, order, marshalList, entries)
    ensures !aborted ==> w.header == (if AnyRejected(order) then Some(StatusBadRequest) else None)
    ensures aborted ==>
      w.Status() == (if AnyRejected(order[..processed]) then StatusBadRequest else StatusInternalServerError)
  {
    entries := [];
    w := Unwritten;
    var position := 0;
    var i := 0;
    while i < |order|
      invariant 0 <= i <= |order|
      invariant position == |entries|
      invariant EntriesFor(form, order[..i], marshalList, entries)
      invariant w.header == (if AnyRejected(order[..i]) then Some(StatusBadRequest) else None)
    {
      var key := order[i];
      ghost var seen := order[..i];
      assert order[..i + 1] == seen + [key];
      AcceptedSnoc(seen, key);
      AnyRejectedSnoc(seen, key);
      if HasPrefix(key, DeviceActionPrefix) {
        var deviceIdStr := TrimPrefix(key, DeviceActionPrefix);
        var deviceId := Atoi(deviceIdStr);
        if deviceId.None? {
          assert Rejects(key);
          w := Error(w, "Invalid device ID " + deviceIdStr, StatusBadRequest);
          EntriesForSkip(form, seen, key, marshalList, entries);
        } else {
          assert Accepts(key) && !Rejects(key);
          var functionalitiesJSON := marshalList(form[key]);
          if functionalitiesJSON.None? {
            w := Error(w, "Error encoding functionalities", StatusInternalServerError);
            processed := i;
            aborted := true;
            EntriesForEncoded(form, seen, marshalList, entries);
            return;
          }
          EntriesForAppend(form, seen, key, marshalList, entries);
          entries := entries + [Entry(deviceId.value, functionalitiesJSON.value, position)];
          position := position + 1;
        }
      } else {
        assert !Accepts(key) && !Rejects(key);
        EntriesForSkip(form, seen, key, marshalList, entries);
      }
      assert EntriesFor(form, seen + [key], marshalList, entries);
      assert w.header == (if AnyRejected(seen + [key]) then Some(StatusBadRequest) else None);
      i := i + 1;
    }
    assert order[..i] == order;
    processed := i;
    aborted := false;
    EntriesForEncoded(form, order, marshalList, entries);
  }

  /** `order` lists each key of `keys` exactly once. */
  predicate Enumerates(order: seq<string>, keys: set<string>) {
    && (forall i, j | 0 <= i < j < |order| :: order[i] != order[j])
    && (forall k | k in order :: k in keys)
    && (forall k | k in keys :: k in order)
  }

  /** The calls CreateDashboardHandler makes and what it writes: the name
      given to CreateDashboard, the dashboard id and entries given to
      InsertDevicesToDashboard, and the response. */
  datatype DashboardOutcome = DashboardOutcome(
    createCall: Option<string>,
    insertCall: Option<(int, seq<Entry>)>,
    response: Response)

  /** CreateDashboardHandler. `form` is the parsed form (None when ParseForm
      fails) and `order` the order in which the range loop visits its keys
      once `dashboardName` has been deleted; `createDashboard` is
      CreateDashboard (None on error) and `insertFails` whether
      InsertDevicesToDashboard fails. */
  method CreateDashboardHandler(
    form: Option<Form>, order: seq<string>,
    marshalList: seq<string> -> Option<string>,
    createDashboard: string -> Option<int>,
    insertFails: (int, seq<Entry>) -> bool)
    returns (o: DashboardOutcome)
    requires form.Some? ==> Enumerates(order, form.value.Keys - {DashboardNameKey})
    ensures form.None? ==>
      o.createCall.None? && o.insertCall.None?
      && o.response.Status() == StatusBadRequest && o.response.body == "Failed to parse form\n"
    ensures form.Some? && FormValue(form.value, DashboardNameKey) == "" ==>
      o.createCall.None? && o.insertCall.None?
      && o.response.Status() == StatusBadRequest && o.response.body == "Dashboard name is required\n"
    ensures o.createCall.Some? ==>
      && form.Some?
      && o.createCall.value == FormValue(form.value, DashboardNameKey)
      && o.createCall.value != ""
      && forall k | k in form.value && Accepts(k) :: marshalList(form.value[k]).Some?
    ensures form.Some? && FormValue(form.value, DashboardNameKey) != ""
            && (forall k | k in form.value && Accepts(k) :: marshalList(form.value[k]).Some?) ==>
      o.createCall == Some(FormValue(form.value, DashboardNameKey))
    ensures o.insertCall.Some? ==>
      && o.createCall.Some?
      && createDashboard(o.createCall.value) == Some(o.insertCall.value.0)
      && EntriesFor(form.value, order, marshalList, o.insertCall.value.1)
    ensures o.createCall.Some? && createDashboard(o.createCall.value).Some? ==> o.insertCall.Some?
    ensures o.createCall.Some? ==>
      o.response.Status() ==
        if AnyRejected(order) then StatusBadRequest
        else if o.insertCall.None? || insertFails(o.insertCall.value.0, o.insertCall.value.1)
        then StatusInternalServerError
        else StatusOK
    ensures form.Some? && FormValue(form.value, DashboardNameKey) != "" && o.createCall.None? ==>
      o.response.Status() in {StatusBadRequest, StatusInternalServerError}
    ensures form.Some? && FormValue(form.value, DashboardNameKey) != "" && o.createCall.None? ==>
      exists p | 0 <= p < |order| ::
        && FirstEncodingFailure(form.value, order, marshalList, p)
        && o.response.Status() ==
             (if AnyRejected(order[..p]) then StatusBadRequest else StatusInternalServerError)
  {
    if form.None? {
      return DashboardOutcome(None, None, Error(Unwritten, "Failed to parse form", StatusBadRequest));
    }
    var f := form.value;
    var dashboardName := FormValue(f, DashboardNameKey);
    if dashboardName == "" {
      return DashboardOutcome(None, None, Error(Unwritten, "Dashboard name is required", StatusBadRequest));
    }
    var remaining := f - {DashboardNameKey};
    var entries, w, processed, aborted := CollectEntries(remaining, order, marshalList);
    AcceptedMembers(order[..processed]);
    if aborted {
      AbortIsFirstFailure(f, order, marshalList, processed);
      return DashboardOutcome(None, None, w);
    }
    assert order[..processed] == order;
    forall k | k in f && Accepts(k) ensures marshalList(f[k]).Some? {
      assert k != DashboardNameKey;
      assert k in order;
    }
    assert EntriesFor(f, order, marshalList, entries);
    match createDashboard(dashboardName)
    case None =>
      return DashboardOutcome(Some(dashboardName), None, Error(w, "Failed to create dashboard", StatusInternalServerError));
    case Some(dashboardId) =>
      if insertFails(dashboardId, entries) {
        return DashboardOutcome(Some(dashboardName), Some((dashboardId, entries)),
          Error(w, "Failed to save devices", StatusInternalServerError));
      }
      return DashboardOutcome(Some(dashboardName), Some((dashboardId, entries)),
        Print(w, "Dashboard saved successfully!\n"));
  }

  /** The key at `p` is the first accepted key, in iteration order, whose
      values fail to encode. */
  predicate FirstEncodingFailure(form: Form, order: seq<string>, marshalList: seq<string> -> Option<string>, p: int) {
    && 0 <= p < |order|
    && order[p] in form && Accepts(order[p]) && marshalList(form[order[p]]).None?
    && forall q | 0 <= q < p ::
         !(order[q] in form && Accepts(order[q]) && marshalList(form[order[q]]).None?)
  }

  /** Where the key loop stopped on the form without `dashboardName`, it
      stopped at the first accepted key of the whole form whose values fail
      to encode. */
  lemma AbortIsFirstFailure(form: Form, order: seq<string>, marshalList: seq<string> -> Option<string>, p: nat)
    requires forall k | k in order :: k in form - {DashboardNameKey}
    requires p < |order| && Accepts(order[p])
    requires marshalList((form - {DashboardNameKey})[order[p]]).None?
    requires forall k | k in Accepted(order[..p]) :: marshalList((form - {DashboardNameKey})[k]).Some?
    ensures FirstEncodingFailure(form, order, marshalList, p)
  {
    var remaining := form - {DashboardNameKey};
    AcceptedMembers(order[..p]);
    assert order[p] in order;
    forall q | 0 <= q < p
      ensures !(order[q] in form && Accepts(order[q]) && marshalList(form[order[q]]).None?)
    {
      var k := order[q];
      assert k in order && k in order[..p];
      if Accepts(k) {
        assert k in Accepted(order[..p]);
        assert remaining[k] == form[k];
      }
    }
  }

  lemma {:induction false} AcceptedDistinct(keys: seq<string>)
    requires forall i, j | 0 <= i < j < |keys| :: keys[i] != keys[j]
    ensures forall i, j | 0 <= i < j < |Accepted(keys)| :: Accepted(keys)[i] != Accepted(keys)[j]
    decreases |keys|
  {
    if |keys| > 0 {
      var init := keys[..|keys| - 1];
      var last := keys[|keys| - 1];
      AcceptedDistinct(init);
      AcceptedMembers(init);
      assert keys == init + [last];
      assert last !in init;
    }
  }

  lemma {:induction false} DistinctCardinality(s: seq<string>)
    requires forall i, j | 0 <= i < j < |s| :: s[i] != s[j]
    ensures |set k | k in s| == |s|
    decreases |s|
  {
    if |s| > 0 {
      var init := s[..|s| - 1];
      var last := s[|s| - 1];
      DistinctCardinality(init);
      assert s == init + [last];
      assert last !in init;
      assert (set k | k in s) == (set k | k in init) + {last};
    }
  }

  /** The entries do not depend on the order in which Go's map iteration
      visits the form: for any two orders of the same keys, the accepted keys
      are the same set and there are as many of them, so the dashboard gets
      the same number of entries, for the same keys, always at positions
      0 .. n-1. */
  lemma AcceptedIndependentOfOrder(order1: seq<string>, order2: seq<string>, keys: set<string>)
    requires Enumerates(order1, keys) && Enumerates(order2, keys)
    ensures forall k :: k in Accepted(order1) <==> k in Accepted(order2)
    ensures |Accepted(order1)| == |Accepted(order2)|
  {
    AcceptedMembers(order1);
    AcceptedMembers(order2);
    AcceptedDistinct(order1);
    AcceptedDistinct(order2);
    DistinctCardinality(Accepted(order1));
    DistinctCardinality(Accepted(order2));
    assert (set k | k in Accepted(order1)) == (set k | k in Accepted(order2));
  }

  /** A key with a non-integer suffix is reported with 400 but does not stop
      the dashboard from being created from the remaining keys: the 400
      stays the response status even after the dashboard and its entries
      were saved. */
  lemma RejectedKeyKeepsGoodKey(name: string, bad: string, good: string, values: seq<string>, json: string)
    requires name != ""
    requires Atoi(bad).None? && Atoi(good).Some?
    ensures var form := map[DashboardNameKey := [name],
                            DeviceActionPrefix + bad := values,
                            DeviceActionPrefix + good := values];
      var order := [DeviceActionPrefix + bad, DeviceActionPrefix + good];
      && Enumerates(order, form.Keys - {DashboardNameKey})
      && AnyRejected(order)
      && Accepted(order) == [DeviceActionPrefix + good]
  {
    var badKey := DeviceActionPrefix + bad;
    var goodKey := DeviceActionPrefix + good;
    TrimPrefixOfConcat(DeviceActionPrefix, bad);
    TrimPrefixOfConcat(DeviceActionPrefix, good);
    var order := [badKey, goodKey];
    assert Rejects(order[0]);
    assert badKey != goodKey;
    assert badKey != DashboardNameKey by {
      assert badKey[..|DeviceActionPrefix|] == DeviceActionPrefix;
      assert DashboardNameKey[1] != DeviceActionPrefix[1];
    }
    assert goodKey != DashboardNameKey by {
      assert goodKey[..|DeviceActionPrefix|] == DeviceActionPrefix;
      assert DashboardNameKey[1] != DeviceActionPrefix[1];
    }
    assert order[..1] == [badKey];
    assert Accepted([badKey]) == [] by {
      assert [badKey][..0] == order[..0];
    }
  }
}
