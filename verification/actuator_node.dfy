/**
 * The sensor/actuator module of the later firmware (`SensorActuatorModule`):
 * once the node's radio is ready it activates the primary channel and sends a
 * sensor JSON text every 30 s; it accepts LED commands as JSON text, drives the
 * two LED pins accordingly, and answers with a feedback JSON text holding both
 * LED states.
 */
module ActuatorNode {
  import opened Wrappers
  import opened Strings
  import opened Mesh

  const TRIGPIN: nat := 5
  const LED1_PIN: nat := 48
  const LED2_PIN: nat := 47

  /** Milliseconds between two sensor transmissions. */
  const SEND_INTERVAL: u32 := 30000

  const KEY_LED1: string := "\"led1\""
  const KEY_LED2: string := "\"led2\""
  const FEEDBACK_LED1: string := "feedbackled1"
  const FEEDBACK_LED2: string := "feedbackled2"
  const TRUE_TEXT: string := "true"

  /** `radioReady()`: the router and node database exist, the node has a number and the send queue a capacity. */
  function RadioReady(radio: Radio): (r: bool)
    ensures r <==> radio.hasRouter && radio.hasNodeDb && radio.nodeNum != 0 && radio.queueMaxLen != 0
  {
    if !radio.hasRouter || !radio.hasNodeDb then false
    else if radio.nodeNum == 0 then false
    else if radio.queueMaxLen == 0 then false
    else true
  }

  /** The pin level for an LED state: `state ? HIGH : LOW`. */
  function LevelOf(on: bool): Level
  {
    if on then High else Low
  }

  // ----- Incoming LED commands -----

  /** What `handleIncomingPacket` makes of a packet: one of four reasons to ignore it, or the LED states it sets. */
  datatype Verdict =
    | NotText
    | NotJson
    | FeedbackEcho
    | NoLedKey
    | Command(led1: Option<bool>, led2: Option<bool>)

  /** The text `true` occurs at or after the first occurrence of `key`. */
  ghost predicate TrueAfterKey(lower: string, key: string)
  {
    exists i, j :: FirstOccurrence(lower, key, i) && i <= j && OccursAt(lower, TRUE_TEXT, j)
  }

  /**
   * The handler's decision, stated with occurrences rather than index arithmetic:
   * only text shaped `{...}` is considered; after ASCII lowercasing, a text that
   * mentions `feedbackled1` or `feedbackled2` is the module's own feedback and is
   * ignored, as is one without a quoted `"led1"` or `"led2"` key; each key that is
   * present sets its LED on exactly when `true` occurs anywhere from that key's
   * first occurrence on.
   */
  ghost function LedVerdict(p: Received): Verdict
  {
    if !p.isText then NotText
    else
      var msg := CString(p.payload);
      if !(StartsWith(msg, "{") && EndsWith(msg, "}")) then NotJson
      else
        var lower := ToLower(msg);
        if Contains(lower, FEEDBACK_LED1) || Contains(lower, FEEDBACK_LED2) then FeedbackEcho
        else if !Contains(lower, KEY_LED1) && !Contains(lower, KEY_LED2) then NoLedKey
        else Command(
          if Contains(lower, KEY_LED1) then Some(TrueAfterKey(lower, KEY_LED1)) else None,
          if Contains(lower, KEY_LED2) then Some(TrueAfterKey(lower, KEY_LED2)) else None)
  }

  /** With the first occurrence of `key` at `pos`, `TrueAfterKey` is a search for `true` from `pos`. */
  lemma TrueAfterKeyFrom(lower: string, key: string, pos: int)
    requires |key| > 0 && FirstOccurrence(lower, key, pos)
    ensures TrueAfterKey(lower, key) <==> IndexOf(lower, TRUE_TEXT, pos) != -1
  {
    var t := IndexOf(lower, TRUE_TEXT, pos);
    if t != -1 {
      assert FirstOccurrence(lower, key, pos) && pos <= t && OccursAt(lower, TRUE_TEXT, t);
    }
  }

  /** The state `key` sets, computed the way the handler computes it. */
  function KeyedState(lower: string, key: string): Option<bool>
  {
    var pos := IndexOf(lower, key, 0);
    if pos == -1 then None else Some(IndexOf(lower, TRUE_TEXT, pos) != -1)
  }

  lemma KeyedStateMeaning(lower: string, key: string)
    requires |key| > 0
    ensures KeyedState(lower, key) == if Contains(lower, key) then Some(TrueAfterKey(lower, key)) else None
  {
    IndexOfFinds(lower, key);
    var pos := IndexOf(lower, key, 0);
    if pos != -1 {
      TrueAfterKeyFrom(lower, key, pos);
    }
  }

  /**
   * The verdict in the handler's own terms: the `indexOf` tests in the order the
   * handler makes them.
   */
  lemma LedVerdictByIndexOf(p: Received)
    requires p.isText
    ensures var msg := CString(p.payload);
            var lower := ToLower(msg);
            LedVerdict(p) ==
              if !(StartsWith(msg, "{") && EndsWith(msg, "}")) then NotJson
              else if IndexOf(lower, FEEDBACK_LED1, 0) != -1 || IndexOf(lower, FEEDBACK_LED2, 0) != -1 then FeedbackEcho
              else if IndexOf(lower, KEY_LED1, 0) == -1 && IndexOf(lower, KEY_LED2, 0) == -1 then NoLedKey
              else Command(KeyedState(lower, KEY_LED1), KeyedState(lower, KEY_LED2))
  {
    var lower := ToLower(CString(p.payload));
    IndexOfFinds(lower, FEEDBACK_LED1);
    IndexOfFinds(lower, FEEDBACK_LED2);
    IndexOfFinds(lower, KEY_LED1);
    IndexOfFinds(lower, KEY_LED2);
    KeyedStateMeaning(lower, KEY_LED1);
    KeyedStateMeaning(lower, KEY_LED2);
  }

  /** What the value of an LED key evidently has to be to turn the LED on: the text `:true` right after the key. */
  const COLON_TRUE: string := ":true"

  /**
   * The evidently intended reading of one LED key: absent when the key is,
   * otherwise on exactly when the value written right after its first
   * occurrence is `true`.
   */
  function KeyValue(lower: string, key: string): (v: Option<bool>)
    requires |key| > 0
    ensures v.None? <==> !Contains(lower, key)
    ensures v.Some? ==> forall i :: FirstOccurrence(lower, key, i) ==> (v.value <==> OccursAt(lower, COLON_TRUE, i + |key|))
  {
    IndexOfFinds(lower, key);
    var pos := IndexOf(lower, key, 0);
    if pos == -1 then None else Some(OccursAt(lower, COLON_TRUE, pos + |key|))
  }

  /**
   * The handler with the LED branches corrected: the same checks in the same
   * order, and the same keys present, but each LED takes its own value instead
   * of "`true` anywhere from its key on".
   */
  function CorrectedLedVerdict(p: Received): (v: Verdict)
    ensures !LedVerdict(p).Command? ==> v == LedVerdict(p)
    ensures LedVerdict(p).Command? ==>
              && v.Command?
              && v.led1.Some? == LedVerdict(p).led1.Some?
              && v.led2.Some? == LedVerdict(p).led2.Some?
  {
    if !p.isText then NotText
    else
      LedVerdictByIndexOf(p);
      var msg := CString(p.payload);
      if !(StartsWith(msg, "{") && EndsWith(msg, "}")) then NotJson
      else
        var lower := ToLower(msg);
        IndexOfFinds(lower, KEY_LED1);
        IndexOfFinds(lower, KEY_LED2);
        if IndexOf(lower, FEEDBACK_LED1, 0) != -1 || IndexOf(lower, FEEDBACK_LED2, 0) != -1 then FeedbackEcho
        else if IndexOf(lower, KEY_LED1, 0) == -1 && IndexOf(lower, KEY_LED2, 0) == -1 then NoLedKey
        else Command(KeyValue(lower, KEY_LED1), KeyValue(lower, KEY_LED2))
  }

  /** The pin writes of an accepted command: LED1's first, each only when its key was present. */
  function CommandWrites(led1: Option<bool>, led2: Option<bool>): seq<Event>
  {
    (if led1.Some? then [DigitalWrite(LED1_PIN, LevelOf(led1.value))] else [])
    + (if led2.Some? then [DigitalWrite(LED2_PIN, LevelOf(led2.value))] else [])
  }

  // ----- Outgoing texts -----

  /** The feedback text `sendLedStateBack` builds. */
  function FeedbackJson(led1: bool, led2: bool): string
  {
    "{" + "\"feedbackled1\":" + BoolText(led1) + "," + "\"feedbackled2\":" + BoolText(led2) + "}"
  }

  /** The sensor text `sendSensorData` builds. */
  function SensorJson(r: Readings): string
  {
    "{" + ("\"temp\":" + r.temp + ",") + ("\"hum\":" + r.hum + ",") + ("\"lux\":" + r.lux + ",") + ("\"dist\":" + r.dist) + "}"
  }

  /** The fields both senders fill in before `router->sendLocal`: a broadcast text message on channel 0. */
  function TextPacket(base: Packet, payload: seq<char>): Packet
  {
    base.(payload := payload, portnum := TextMessageApp, to := BROADCAST, channel := 0)
  }

  /** The effects of `sendLedStateBack`: one broadcast of the feedback text, unless the radio is not ready or no packet is available. */
  function FeedbackEvents(radio: Radio, alloc: Allocation, capacity: nat, led1: bool, led2: bool): seq<Event>
    requires capacity >= 1
  {
    if !RadioReady(radio) || alloc.AllocFailed? then []
    else [SendLocal(TextPacket(alloc.packet, Strlcpy(FeedbackJson(led1, led2), capacity)))]
  }

  /** The ultrasonic trigger pulse: LOW, HIGH, LOW on the trigger pin. */
  const TRIGGER_PULSE: seq<Event> :=
    [DigitalWrite(TRIGPIN, Low), DigitalWrite(TRIGPIN, High), DigitalWrite(TRIGPIN, Low)]

  /** The effects of `sendSensorData`: nothing unless the radio is ready; then the trigger pulse, and the sensor text if a packet is available. */
  function SensorDataEvents(radio: Radio, readings: Readings, alloc: Allocation, capacity: nat): seq<Event>
    requires capacity >= 1
  {
    if !RadioReady(radio) then []
    else if alloc.AllocFailed? then TRIGGER_PULSE
    else TRIGGER_PULSE + [SendLocal(TextPacket(alloc.packet, Strlcpy(SensorJson(readings), capacity)))]
  }

  /** The LED pin reads HIGH exactly when the module holds the LED on (never written counts as LOW). */
  ghost predicate PinShows(trace: seq<Event>, pin: nat, on: bool)
  {
    LastLevel(trace, pin) == Some(High) <==> on
  }

  /** Effects that touch neither the channel latch nor the LED pins. */
  ghost predicate Quiet(events: seq<Event>)
  {
    Activations(events) == 0 && LastLevel(events, LED1_PIN).None? && LastLevel(events, LED2_PIN).None?
  }

  lemma QuietAppend(a: seq<Event>, b: seq<Event>)
    requires Quiet(a) && Quiet(b)
    ensures Quiet(a + b)
  {
    ActivationsAppend(a, b);
    LastLevelAppend(a, b, LED1_PIN);
    LastLevelAppend(a, b, LED2_PIN);
  }

  lemma QuietSingle(e: Event)
    requires !e.SetActiveChannel?
    requires e.DigitalWrite? ==> e.pin != LED1_PIN && e.pin != LED2_PIN
    ensures Quiet([e])
  {
    assert [e][..0] == [];
  }

  /** Appending quiet effects keeps the channel count and both LED pins as they were. */
  lemma QuietKeeps(trace: seq<Event>, events: seq<Event>)
    requires Quiet(events)
    ensures Activations(trace + events) == Activations(trace)
    ensures LastLevel(trace + events, LED1_PIN) == LastLevel(trace, LED1_PIN)
    ensures LastLevel(trace + events, LED2_PIN) == LastLevel(trace, LED2_PIN)
  {
    ActivationsAppend(trace, events);
    LastLevelAppend(trace, events, LED1_PIN);
    LastLevelAppend(trace, events, LED2_PIN);
  }

  lemma SendEventsQuiet(radio: Radio, readings: Readings, alloc: Allocation, capacity: nat, led1: bool, led2: bool)
    requires capacity >= 1
    ensures Quiet(TRIGGER_PULSE)
    ensures Quiet(FeedbackEvents(radio, alloc, capacity, led1, led2))
    ensures Quiet(SensorDataEvents(radio, readings, alloc, capacity))
  {
    QuietSingle(DigitalWrite(TRIGPIN, Low));
    QuietSingle(DigitalWrite(TRIGPIN, High));
    QuietAppend([DigitalWrite(TRIGPIN, Low)], [DigitalWrite(TRIGPIN, High)]);
    QuietAppend([DigitalWrite(TRIGPIN, Low), DigitalWrite(TRIGPIN, High)], [DigitalWrite(TRIGPIN, Low)]);
    assert [DigitalWrite(TRIGPIN, Low), DigitalWrite(TRIGPIN, High)] + [DigitalWrite(TRIGPIN, Low)] == TRIGGER_PULSE;
    if RadioReady(radio) && alloc.Allocated? {
      var send := SendLocal(TextPacket(alloc.packet, Strlcpy(SensorJson(readings), capacity)));
      QuietSingle(send);
      QuietAppend(TRIGGER_PULSE, [send]);
      QuietSingle(SendLocal(TextPacket(alloc.packet, Strlcpy(FeedbackJson(led1, led2), capacity))));
    }
  }

  /** Writing an LED pin: the channel count and the other LED pin are untouched. */
  lemma LedWrite(trace: seq<Event>, pin: nat, other: nat, on: bool)
    requires pin != other
    ensures Activations(trace + [DigitalWrite(pin, LevelOf(on))]) == Activations(trace)
    ensures PinShows(trace + [DigitalWrite(pin, LevelOf(on))], pin, on)
    ensures LastLevel(trace + [DigitalWrite(pin, LevelOf(on))], other) == LastLevel(trace, other)
  {
    var w := [DigitalWrite(pin, LevelOf(on))];
    assert w[..0] == [];
    ActivationsAppend(trace, w);
    LastLevelAppend(trace, w, pin);
    LastLevelAppend(trace, w, other);
  }

  /**
   * The module.  `pskReady`, a function-local static of `loop()` in the source,
   * is a field here (the firmware holds one instance).  `trace` records every
   * write to the LED and trigger pins, packet handed to the router and channel
   * activation, in order; `capacity` is the size of a packet's payload buffer.
   */
  class SensorActuatorModule {
    const capacity: nat
    var led1State: bool
    var led2State: bool
    var lastSend: u32
    var pskReady: bool
    var trace: seq<Event>

    /**
     * The channel is activated once, exactly when the latch is set, and each LED
     * pin shows the state the module holds for it.
     */
    ghost predicate Valid()
      reads this
    {
      && capacity >= 1
      && Activations(trace) == (if pskReady then 1 else 0)
      && PinShows(trace, LED1_PIN, led1State)
      && PinShows(trace, LED2_PIN, led2State)
    }

    constructor (capacity: nat)
      requires capacity >= 1
      ensures Valid()
      ensures this.capacity == capacity
      ensures !led1State && !led2State && lastSend == 0 && !pskReady && trace == []
    {
      this.capacity := capacity;
      led1State, led2State := false, false;
      lastSend := 0;
      pskReady := false;
      trace := [];
    }

    /** `setup()`, run once at boot before anything else: both LED pins driven LOW. */
    method Setup()
      requires Valid() && trace == []
      modifies this
      ensures Valid()
      ensures trace == [DigitalWrite(LED1_PIN, Low), DigitalWrite(LED2_PIN, Low)]
      ensures !led1State && !led2State && lastSend == old(lastSend) && pskReady == old(pskReady)
    {
      trace := trace + [DigitalWrite(LED1_PIN, Low)];
      trace := trace + [DigitalWrite(LED2_PIN, Low)];
      assert trace[..1] == [DigitalWrite(LED1_PIN, Low)];
    }

    /**
     * `loop()`: the first time the radio is ready the primary channel is
     * activated and the latch set for good; while the latch is set, sensor data
     * is sent when at least `SEND_INTERVAL` ms have passed since `lastSend`,
     * measured with unsigned 32-bit wrap-around.  `nowCheck` and `nowStamp` are
     * the two `millis()` readings, for the test and for the new `lastSend`.
     */
    method Loop(radio: Radio, nowCheck: u32, nowStamp: u32, readings: Readings, alloc: Allocation)
      requires Valid()
      modifies this
      ensures Valid()
      ensures old(pskReady) ==> pskReady
      ensures pskReady == (old(pskReady) || RadioReady(radio))
      ensures led1State == old(led1State) && led2State == old(led2State)
      ensures var due := pskReady && WrappingSub(nowCheck, old(lastSend)) >= SEND_INTERVAL;
              && lastSend == (if due then nowStamp else old(lastSend))
              && trace == old(trace)
                 + (if !old(pskReady) && RadioReady(radio) then [SetActiveChannel(0)] else [])
                 + (if due then SensorDataEvents(radio, readings, alloc, capacity) else [])
    {
      ghost var activation: seq<Event> := [];
      if !pskReady && RadioReady(radio) {
        activation := [SetActiveChannel(0)];
        ActivationsAppend(trace, activation);
        LastLevelAppend(trace, activation, LED1_PIN);
        LastLevelAppend(trace, activation, LED2_PIN);
        trace := trace + [SetActiveChannel(0)];
        pskReady := true;
      }
      ghost var latched := trace;
      assert latched == old(trace) + activation;
      if pskReady && WrappingSub(nowCheck, lastSend) >= SEND_INTERVAL {
        lastSend := nowStamp;
        SendSensorData(radio, readings, alloc);
        assert trace == latched + SensorDataEvents(radio, readings, alloc, capacity);
      } else {
        assert trace == latched + [];
      }
    }

    /**
     * `sendSensorData()`: when the radio is ready, pulse the ultrasonic trigger,
     * build the sensor text and, if the router hands out a packet, broadcast it.
     */
    method SendSensorData(radio: Radio, readings: Readings, alloc: Allocation)
      requires Valid()
      modifies this
      ensures Valid()
      ensures trace == old(trace) + SensorDataEvents(radio, readings, alloc, capacity)
      ensures led1State == old(led1State) && led2State == old(led2State)
      ensures lastSend == old(lastSend) && pskReady == old(pskReady)
    {
      if !RadioReady(radio) {
        assert trace + [] == trace;
        return;
      }
      SendEventsQuiet(radio, readings, alloc, capacity, led1State, led2State);
      QuietKeeps(trace, TRIGGER_PULSE);
      trace := trace + TRIGGER_PULSE;
      var json := "{";
      json := json + ("\"temp\":" + readings.temp + ",");
      json := json + ("\"hum\":" + readings.hum + ",");
      json := json + ("\"lux\":" + readings.lux + ",");
      json := json + ("\"dist\":" + readings.dist);
      json := json + "}";
      assert json == SensorJson(readings);
      if alloc.AllocFailed? {
        return;
      }
      var payload := Strlcpy(json, capacity);
      var send := [SendLocal(TextPacket(alloc.packet, payload))];
      QuietSingle(send[0]);
      QuietKeeps(trace, send);
      trace := trace + send;
    }

    /**
     * `handleIncomingPacket()`: ignore anything that is not text, not shaped
     * `{...}`, the module's own feedback, or without an LED key; otherwise set
     * each LED whose key is present, drive its pin, and send the feedback.
     */
    method HandleIncomingPacket(p: Received, radio: Radio, alloc: Allocation)
      requires Valid()
      modifies this
      ensures Valid()
      ensures var v := LedVerdict(p);
              if v.Command? then
                && led1State == (if v.led1.Some? then v.led1.value else old(led1State))
                && led2State == (if v.led2.Some? then v.led2.value else old(led2State))
                && trace == old(trace) + CommandWrites(v.led1, v.led2)
                   + FeedbackEvents(radio, alloc, capacity, led1State, led2State)
              else
                led1State == old(led1State) && led2State == old(led2State) && trace == old(trace)
      ensures lastSend == old(lastSend) && pskReady == old(pskReady)
    {
      if !p.isText {
        return;
      }
      LedVerdictByIndexOf(p);
      var msg := CString(p.payload);
      if !(StartsWith(msg, "{") && EndsWith(msg, "}")) {
        return;
      }
      var lowerMsg := ToLower(msg);
      if IndexOf(lowerMsg, FEEDBACK_LED1, 0) != -1 || IndexOf(lowerMsg, FEEDBACK_LED2, 0) != -1 {
        return;
      }
      var hasLed1 := IndexOf(lowerMsg, KEY_LED1, 0) != -1;
      var hasLed2 := IndexOf(lowerMsg, KEY_LED2, 0) != -1;
      if !hasLed1 && !hasLed2 {
        return;
      }
      ghost var led1, led2 := KeyedState(lowerMsg, KEY_LED1), KeyedState(lowerMsg, KEY_LED2);
      assert LedVerdict(p) == Command(led1, led2);
      ApplyCommand(lowerMsg);
      ghost var written := trace;
      assert written == old(trace) + CommandWrites(led1, led2);
      SendLedStateBack(radio, alloc);
      assert trace == written + FeedbackEvents(radio, alloc, capacity, led1State, led2State);
    }

    /** The LED part of the handler: each LED whose key is present is set and its pin driven, LED1 first. */
    method ApplyCommand(lowerMsg: string)
      requires Valid()
      modifies this
      ensures Valid()
      ensures var led1, led2 := KeyedState(lowerMsg, KEY_LED1), KeyedState(lowerMsg, KEY_LED2);
              && led1State == (if led1.Some? then led1.value else old(led1State))
              && led2State == (if led2.Some? then led2.value else old(led2State))
              && trace == old(trace) + CommandWrites(led1, led2)
      ensures lastSend == old(lastSend) && pskReady == old(pskReady)
    {
      UpdateLed1(lowerMsg);
      UpdateLed2(lowerMsg);
    }

    /** The `hasLed1` branch: `led1State` becomes "`true` occurs from the key on", and the pin follows. */
    method UpdateLed1(lowerMsg: string)
      requires Valid()
      modifies this
      ensures Valid()
      ensures var led1 := KeyedState(lowerMsg, KEY_LED1);
              && led1State == (if led1.Some? then led1.value else old(led1State))
              && trace == old(trace) + CommandWrites(led1, None)
      ensures led2State == old(led2State) && lastSend == old(lastSend) && pskReady == old(pskReady)
    {
      if IndexOf(lowerMsg, KEY_LED1, 0) != -1 {
        var pos := IndexOf(lowerMsg, KEY_LED1, 0);
        led1State := IndexOf(lowerMsg, TRUE_TEXT, pos) != -1;
        LedWrite(trace, LED1_PIN, LED2_PIN, led1State);
        trace := trace + [DigitalWrite(LED1_PIN, LevelOf(led1State))];
      }
    }

    /** The `hasLed2` branch, likewise for LED2. */
    method UpdateLed2(lowerMsg: string)
      requires Valid()
      modifies this
      ensures Valid()
      ensures var led2 := KeyedState(lowerMsg, KEY_LED2);
              && led2State == (if led2.Some? then led2.value else old(led2State))
              && trace == old(trace) + CommandWrites(None, led2)
      ensures led1State == old(led1State) && lastSend == old(lastSend) && pskReady == old(pskReady)
    {
      if IndexOf(lowerMsg, KEY_LED2, 0) != -1 {
        var pos := IndexOf(lowerMsg, KEY_LED2, 0);
        led2State := IndexOf(lowerMsg, TRUE_TEXT, pos) != -1;
        LedWrite(trace, LED2_PIN, LED1_PIN, led2State);
        trace := trace + [DigitalWrite(LED2_PIN, LevelOf(led2State))];
      }
    }

    /**
     * `sendLedStateBack()`: when the radio is ready and the router hands out a
     * packet, broadcast `{"feedbackled1":<led1>,"feedbackled2":<led2>}`, cut to
     * the payload buffer.
     */
    method SendLedStateBack(radio: Radio, alloc: Allocation)
      requires Valid()
      modifies this
      ensures Valid()
      ensures trace == old(trace) + FeedbackEvents(radio, alloc, capacity, led1State, led2State)
      ensures led1State == old(led1State) && led2State == old(led2State)
      ensures lastSend == old(lastSend) && pskReady == old(pskReady)
    {
      if !RadioReady(radio) {
        assert trace + [] == trace;
        return;
      }
      var json := "{";
      json := json + "\"feedbackled1\":";
      json := json + BoolText(led1State);
      json := json + ",";
      json := json + "\"feedbackled2\":";
      json := json + BoolText(led2State);
      json := json + "}";
      if alloc.AllocFailed? {
        assert trace + [] == trace;
        return;
      }
      var payload := Strlcpy(json, capacity);
      var send := [SendLocal(TextPacket(alloc.packet, payload))];
      QuietSingle(send[0]);
      QuietKeeps(trace, send);
      trace := trace + send;
    }
  }
}
