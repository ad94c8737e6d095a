/** The event-stream consumer (`SseStateHandler`). The shared channel is a
    finite sequence of updates in receipt order, so the `for ... range` loop
    is a fold producing the handler's side effects in order: lines printed to
    stdout, store calls, and frames written to the client. Each frame uses
    the `data:` field of the event-stream format (section 9.2 of the WHATWG
    HTML Standard). `storeFails` is UpdateDeviceState's error result and
    `marshal` is `json.Marshal` of the frame's object (None on error). */
module SseState {
  import opened Wrappers
  import opened GoStrconv
  import opened Model

  datatype Effect =
    | Stdout(line: string)
    | StoreState(deviceId: int, state: map<string, string>)
    | WriteFrame(frame: string)

  type StoreOracle = (int, map<string, string>) -> bool
  type Marshal = map<string, Scalar> -> Option<string>

  /** The `event:` text the handler builds and prints (never sends); `%d`
      of the device id is its decimal form. */
  function EventText(u: Update): string {
    "event: stateUpdate-" + Itoa(u.deviceId) + "-" + u.actionName
    + "\ndata: " + u.state + "\n\n"
  }

  /** The object serialised for one update. */
  function FrameData(u: Update): map<string, Scalar> {
    map["deviceID" := SInt(u.deviceId), "actionName" := SString(u.actionName), "state" := SString(u.state)]
  }

  /** One event-stream message carrying `json` as its data. */
  function Frame(json: string): string {
    "data: " + json + "\n\n"
  }

  /** The state map stored for one update. */
  function StateMap(u: Update): map<string, string> {
    map[u.actionName := u.state]
  }

  /** One loop iteration: print the event text, store the state, log a store
      failure, then either write the frame or log the encoding failure and
      skip the frame. */
  function Step(u: Update, storeFails: StoreOracle, marshal: Marshal): (es: seq<Effect>)
    ensures 3 <= |es| <= 4
    ensures es[0] == Stdout(EventText(u))
    ensures es[1] == StoreState(u.deviceId, map[u.actionName := u.state])
    ensures forall i | 0 <= i < |es| - 1 :: !es[i].WriteFrame?
    ensures es[|es| - 1].WriteFrame? <==> marshal(FrameData(u)).Some?
    ensures marshal(FrameData(u)).Some? ==> es[|es| - 1] == WriteFrame(Frame(marshal(FrameData(u)).value))
  {
    [Stdout(EventText(u)), StoreState(u.deviceId, StateMap(u))] + AfterStore(u, storeFails, marshal)
  }

  /** The rest of an iteration after the store call: the store failure's
      log line (when it failed), then the frame, or the encoding failure's
      log line instead of it. */
  function AfterStore(u: Update, storeFails: StoreOracle, marshal: Marshal): (es: seq<Effect>)
    ensures 1 <= |es| <= 2
    ensures forall i | 0 <= i < |es| :: !es[i].StoreState?
    ensures forall i | 0 <= i < |es| - 1 :: !es[i].WriteFrame?
    ensures es[|es| - 1].WriteFrame? <==> marshal(FrameData(u)).Some?
    ensures marshal(FrameData(u)).Some? ==> es[|es| - 1] == WriteFrame(Frame(marshal(FrameData(u)).value))
  {
    var storeLog := if storeFails(u.deviceId, StateMap(u)) then [Stdout("unable to update state")] else [];
    var written :=
      match marshal(FrameData(u))
      case Some(jsonData) => [WriteFrame(Frame(jsonData))]
      case None => [Stdout("Failed to serialize update to JSON")];
    storeLog + written
  }

  /** The whole loop over the updates received, in order. */
  function Serve(updates: seq<Update>, storeFails: StoreOracle, marshal: Marshal): (es: seq<Effect>)
    ensures |StoreCalls(es)| == |updates|
    decreases |updates|
  {
    if |updates| == 0 then []
    else
      var step := Step(updates[0], storeFails, marshal);
      var rest := Serve(updates[1..], storeFails, marshal);
      StepProjections(updates[0], storeFails, marshal);
      StoreCallsAppend(step, rest);
      step + rest
  }

  /** The frames written to the client, in order. */
  function Frames(es: seq<Effect>): (fs: seq<string>)
    ensures |fs| <= |es|
  {
    if |es| == 0 then []
    else (if es[0].WriteFrame? then [es[0].frame] else []) + Frames(es[1..])
  }

  /** The store calls made, in order. */
  function StoreCalls(es: seq<Effect>): (cs: seq<(int, map<string, string>)>)
    ensures |cs| <= |es|
  {
    if |es| == 0 then []
    else (if es[0].StoreState? then [(es[0].deviceId, es[0].state)] else []) + StoreCalls(es[1..])
  }

  lemma {:induction false} FramesAppend(a: seq<Effect>, b: seq<Effect>)
    ensures Frames(a + b) == Frames(a) + Frames(b)
    decreases |a|
  {
    if |a| > 0 {
      assert (a + b)[1..] == a[1..] + b;
      FramesAppend(a[1..], b);
    } else {
      assert a + b == b;
    }
  }

  lemma {:induction false} StoreCallsAppend(a: seq<Effect>, b: seq<Effect>)
    ensures StoreCalls(a + b) == StoreCalls(a) + StoreCalls(b)
    decreases |a|
  {
    if |a| > 0 {
      assert (a + b)[1..] == a[1..] + b;
      StoreCallsAppend(a[1..], b);
    } else {
      assert a + b == b;
    }
  }

  /** Processing a channel in two parts is processing it in one: the loop
      keeps no state between updates. */
  lemma {:induction false} ServeAppend(a: seq<Update>, b: seq<Update>, storeFails: StoreOracle, marshal: Marshal)
    ensures Serve(a + b, storeFails, marshal) == Serve(a, storeFails, marshal) + Serve(b, storeFails, marshal)
    decreases |a|
  {
    if |a| > 0 {
      assert (a + b)[0] == a[0];
      assert (a + b)[1..] == a[1..] + b;
      ServeAppend(a[1..], b, storeFails, marshal);
    } else {
      assert a + b == b;
    }
  }

  /** The effects of one step contain its frame (if encoding succeeded) and
      exactly one store call. */
  lemma StepProjections(u: Update, storeFails: StoreOracle, marshal: Marshal)
    ensures StoreCalls(Step(u, storeFails, marshal)) == [(u.deviceId, StateMap(u))]
    ensures Frames(Step(u, storeFails, marshal))
         == (if marshal(FrameData(u)).Some? then [Frame(marshal(FrameData(u)).value)] else [])
  {
    var tail := AfterStore(u, storeFails, marshal);
    TailProjections(u, tail, marshal);
    HeadProjections(Stdout(EventText(u)), u.deviceId, StateMap(u), tail);
  }

  /** A printed line and a store call in front of effects with no store
      call: one store call, and the frames of the rest. */
  lemma HeadProjections(line: Effect, deviceId: int, state: map<string, string>, tail: seq<Effect>)
    requires line.Stdout?
    requires StoreCalls(tail) == []
    ensures StoreCalls([line, StoreState(deviceId, state)] + tail) == [(deviceId, state)]
    ensures Frames([line, StoreState(deviceId, state)] + tail) == Frames(tail)
  {
    var second := StoreState(deviceId, state);
    SingleEffect(line);
    SingleEffect(second);
    FramesAppend([line], [second]);
    StoreCallsAppend([line], [second]);
    assert [line, second] == [line] + [second];
    FramesAppend([line, second], tail);
    StoreCallsAppend([line, second], tail);
  }

  /** The projections of a single effect. */
  lemma SingleEffect(e: Effect)
    ensures Frames([e]) == (if e.WriteFrame? then [e.frame] else [])
    ensures StoreCalls([e]) == (if e.StoreState? then [(e.deviceId, e.state)] else [])
  {
    assert [e][1..] == [];
  }

  /** What follows the store call in one step: at most a log line, then the
      frame or the encoding failure's log line. */
  lemma TailProjections(u: Update, tail: seq<Effect>, marshal: Marshal)
    requires 1 <= |tail| <= 2
    requires forall i | 0 <= i < |tail| :: !tail[i].StoreState?
    requires forall i | 0 <= i < |tail| - 1 :: !tail[i].WriteFrame?
    requires tail[|tail| - 1].WriteFrame? <==> marshal(FrameData(u)).Some?
    requires marshal(FrameData(u)).Some? ==> tail[|tail| - 1] == WriteFrame(Frame(marshal(FrameData(u)).value))
    ensures StoreCalls(tail) == []
    ensures Frames(tail) == (if marshal(FrameData(u)).Some? then [Frame(marshal(FrameData(u)).value)] else [])
  {
    SingleEffect(tail[0]);
    if |tail| == 2 {
      assert tail == [tail[0]] + [tail[1]];
      SingleEffect(tail[1]);
      FramesAppend([tail[0]], [tail[1]]);
      StoreCallsAppend([tail[0]], [tail[1]]);
    } else {
      assert tail == [tail[0]];
    }
  }

  /** Exactly one store call per update, in receipt order, for the update's
      device with the singleton map from its action name to its state;
      whether the store fails changes nothing about the calls made. */
  lemma {:induction false} StoreCallPerUpdate(updates: seq<Update>, storeFails: StoreOracle, marshal: Marshal)
    ensures var calls := StoreCalls(Serve(updates, storeFails, marshal));
      && |calls| == |updates|
      && forall i | 0 <= i < |updates| ::
           calls[i] == (updates[i].deviceId, map[updates[i].actionName := updates[i].state])
    decreases |updates|
  {
    if |updates| > 0 {
      var u := updates[0];
      StepProjections(u, storeFails, marshal);
      StoreCallsAppend(Step(u, storeFails, marshal), Serve(updates[1..], storeFails, marshal));
      StoreCallPerUpdate(updates[1..], storeFails, marshal);
    }
  }

  /** The frames the loop should write, by definition: for each update in
      receipt order, its frame when its object encodes and nothing
      otherwise. */
  function EncodedFrames(updates: seq<Update>, marshal: Marshal): (fs: seq<string>)
    ensures |fs| <= |updates|
    decreases |updates|
  {
    if |updates| == 0 then []
    else
      (match marshal(FrameData(updates[0]))
       case Some(json) => [Frame(json)]
       case None => [])
      + EncodedFrames(updates[1..], marshal)
  }

  /** The frames written are exactly the frames of the updates that encode,
      in receipt order: an encoding failure skips that update's frame and
      nothing else. */
  lemma {:induction false} FramesAreEncodedUpdates(updates: seq<Update>, storeFails: StoreOracle, marshal: Marshal)
    ensures Frames(Serve(updates, storeFails, marshal)) == EncodedFrames(updates, marshal)
    decreases |updates|
  {
    if |updates| > 0 {
      var u := updates[0];
      StepProjections(u, storeFails, marshal);
      FramesAppend(Step(u, storeFails, marshal), Serve(updates[1..], storeFails, marshal));
      FramesAreEncodedUpdates(updates[1..], storeFails, marshal);
    }
  }

  /** The object serialised for an update has exactly the keys deviceID,
      actionName and state, carrying the update's fields. */
  lemma FrameDataFields(u: Update)
    ensures FrameData(u).Keys == {"deviceID", "actionName", "state"}
    ensures FrameData(u)["deviceID"] == SInt(u.deviceId)
    ensures FrameData(u)["actionName"] == SString(u.actionName)
    ensures FrameData(u)["state"] == SString(u.state)
  {
  }

  /** When every update encodes, the reference frames are one per update. */
  lemma {:induction false} EncodedFramesAllEncode(updates: seq<Update>, marshal: Marshal)
    requires forall i | 0 <= i < |updates| :: marshal(FrameData(updates[i])).Some?
    ensures |EncodedFrames(updates, marshal)| == |updates|
    ensures forall i | 0 <= i < |updates| ::
      EncodedFrames(updates, marshal)[i] == Frame(marshal(FrameData(updates[i])).value)
    decreases |updates|
  {
    if |updates| > 0 {
      assert marshal(FrameData(updates[0])).Some?;
      EncodedFramesAllEncode(updates[1..], marshal);
    }
  }

  /** When every update encodes, exactly one frame per update is written, in
      receipt order, each `data: <json>\n\n` with the encoding of an object
      holding exactly the keys deviceID, actionName and state. */
  lemma FramePerUpdate(updates: seq<Update>, storeFails: StoreOracle, marshal: Marshal)
    requires forall i | 0 <= i < |updates| :: marshal(FrameData(updates[i])).Some?
    ensures var frames := Frames(Serve(updates, storeFails, marshal));
      && |frames| == |updates|
      && forall i | 0 <= i < |updates| ::
           var data := FrameData(updates[i]);
           && data.Keys == {"deviceID", "actionName", "state"}
           && data["deviceID"] == SInt(updates[i].deviceId)
           && data["actionName"] == SString(updates[i].actionName)
           && data["state"] == SString(updates[i].state)
           && frames[i] == "data: " + marshal(data).value + "\n\n"
  {
    FramesAreEncodedUpdates(updates, storeFails, marshal);
    EncodedFramesAllEncode(updates, marshal);
    forall i | 0 <= i < |updates| ensures FrameData(updates[i]).Keys == {"deviceID", "actionName", "state"} {
      FrameDataFields(updates[i]);
    }
  }

  /** At most one frame per update, whatever fails. */
  lemma AtMostOneFramePerUpdate(updates: seq<Update>, storeFails: StoreOracle, marshal: Marshal)
    ensures |Frames(Serve(updates, storeFails, marshal))| <= |updates|
  {
    FramesAreEncodedUpdates(updates, storeFails, marshal);
  }

  /** A failing store is only logged: the client receives the same frames
      whatever the store answers. */
  lemma StoreFailureKeepsFrames(
    updates: seq<Update>, storeFails1: StoreOracle, storeFails2: StoreOracle, marshal: Marshal)
    ensures Frames(Serve(updates, storeFails1, marshal)) == Frames(Serve(updates, storeFails2, marshal))
  {
    FramesAreEncodedUpdates(updates, storeFails1, marshal);
    FramesAreEncodedUpdates(updates, storeFails2, marshal);
  }

  /** Within the effects of the whole loop, each update's store call comes
      before that update's frame: the effects are the updates' steps in
      order, and in each step the store call is the second effect and the
      frame, if any, the last. */
  lemma {:induction false} StoreBeforeFrame(
    updates: seq<Update>, k: nat, storeFails: StoreOracle, marshal: Marshal)
    requires k < |updates|
    ensures var before := Serve(updates[..k], storeFails, marshal);
      var step := Step(updates[k], storeFails, marshal);
      && Serve(updates, storeFails, marshal)
         == before + step + Serve(updates[k + 1..], storeFails, marshal)
      && step[1] == StoreState(updates[k].deviceId, StateMap(updates[k]))
      && forall i | 0 <= i < |step| && step[i].WriteFrame? :: 1 < i
  {
    assert updates == updates[..k] + ([updates[k]] + updates[k + 1..]);
    ServeAppend(updates[..k], [updates[k]] + updates[k + 1..], storeFails, marshal);
    assert ([updates[k]] + updates[k + 1..])[1..] == updates[k + 1..];
  }

  /** The `event:` text is only printed: every write to the client is a
      `data:` frame, and no frame starts with "event:". */
  lemma {:induction false} OnlyDataFramesWritten(updates: seq<Update>, storeFails: StoreOracle, marshal: Marshal)
    ensures forall e | e in Serve(updates, storeFails, marshal) && e.WriteFrame? ::
      && |e.frame| >= 8
      && e.frame[..6] == "data: "
      && e.frame[|e.frame| - 2..] == "\n\n"
      && forall u: Update :: e.frame != EventText(u)
    decreases |updates|
  {
    if |updates| > 0 {
      var u := updates[0];
      var es := Serve(updates, storeFails, marshal);
      var step := Step(u, storeFails, marshal);
      var rest := Serve(updates[1..], storeFails, marshal);
      assert es == step + rest;
      OnlyDataFramesWritten(updates[1..], storeFails, marshal);
      forall e | e in es && e.WriteFrame?
        ensures |e.frame| >= 8 && e.frame[..6] == "data: " && e.frame[|e.frame| - 2..] == "\n\n"
      {
        if e in step {
          var json := marshal(FrameData(u)).value;
          assert e.frame == "data: " + json + "\n\n";
        }
      }
      forall e | e in es && e.WriteFrame?
        ensures forall u: Update :: e.frame != EventText(u)
      {
        DataFrameIsNotEvent(e.frame);
      }
    }
  }

  /** A `data:` frame is never mistaken for an `event:` line on stdout. */
  lemma DataFrameIsNotEvent(f: string)
    requires |f| >= 6 && f[..6] == "data: "
    ensures forall u: Update :: f != EventText(u)
  {
    forall u: Update ensures f != EventText(u) {
      var t := EventText(u);
      assert t[..6] == "event:";
    }
  }
}
