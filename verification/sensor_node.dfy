/**
 * The earlier combined module (`sensoractuator.cpp`), compiled either for the
 * sensor node or for the actuator node.  The sensor build sends its readings as
 * a JSON text every 30 s; the actuator build flashes `LED_TEMP` whenever a text
 * that looks like sensor data arrives.  Both builds activate the primary channel
 * once the radio is ready.
 */
module SensorNode {
  import opened Wrappers
  import opened Strings
  import opened Mesh

  const TRIGPIN: nat := 5
  const LED_TEMP: nat := 7

  /** Milliseconds between two sensor transmissions, from the shared module header. */
  const SEND_INTERVAL: u32 := 30000

  const KEY_TEMP: string := "\"temp\""
  const KEY_HUMIDITY: string := "\"humidity\""
  const KEY_LUX: string := "\"lux\""
  const KEY_DISTANCE: string := "\"distance\""

  /** Which of the two `#if` branches the module is compiled with. */
  datatype Build = SensorBuild | ActuatorBuild

  /** The static `radioReady()`: router and node database exist, the node has a number and the queue a capacity. */
  function RadioReady(radio: Radio): (r: bool)
    ensures r <==> radio.hasRouter && radio.hasNodeDb && radio.nodeNum != 0 && radio.queueMaxLen != 0
  {
    if !radio.hasRouter || !radio.hasNodeDb then false
    else radio.nodeNum != 0 && radio.queueMaxLen != 0
  }

  /**
   * `isSensorMsg`: the received text mentions one of the four quoted sensor keys,
   * compared case for case.
   */
  function IsSensorMsg(msg: string): (r: bool)
    ensures r <==> Contains(msg, KEY_TEMP) || Contains(msg, KEY_HUMIDITY)
                   || Contains(msg, KEY_LUX) || Contains(msg, KEY_DISTANCE)
  {
    IndexOfFinds(msg, KEY_TEMP);
    IndexOfFinds(msg, KEY_HUMIDITY);
    IndexOfFinds(msg, KEY_LUX);
    IndexOfFinds(msg, KEY_DISTANCE);
    IndexOf(msg, KEY_TEMP, 0) != -1 || IndexOf(msg, KEY_HUMIDITY, 0) != -1
    || IndexOf(msg, KEY_LUX, 0) != -1 || IndexOf(msg, KEY_DISTANCE, 0) != -1
  }

  /** The sensor text the sensor build sends: every value quoted. */
  function SensorJson(r: Readings): string
  {
    "{" + ("\"temp\":\"" + r.temp + "\",") + ("\"humidity\":\"" + r.hum + "\",")
    + ("\"lux\":\"" + r.lux + "\",") + ("\"distance\":\"" + r.dist + "\"") + "}"
  }

  /**
   * The fields `sendSensorData` fills in: a broadcast text message on channel 0,
   * neither PKI-encrypted nor acknowledged, with a hop limit of 3 when the router
   * left it at 0.
   */
  function SensorPacket(base: Packet, payload: seq<char>): (q: Packet)
    ensures q.payload == payload && q.portnum == TextMessageApp && q.to == BROADCAST && q.channel == 0
    ensures !q.pkiEncrypted && !q.wantAck
    ensures q.hopLimit != 0
    ensures base.hopLimit != 0 ==> q.hopLimit == base.hopLimit
    ensures base.hopLimit == 0 ==> q.hopLimit == 3
  {
    var q := base.(payload := payload, portnum := TextMessageApp, to := BROADCAST, channel := 0,
                   pkiEncrypted := false, wantAck := false);
    if q.hopLimit == 0 then q.(hopLimit := 3) else q
  }

  /** The ultrasonic trigger pulse: LOW, HIGH, LOW on the trigger pin. */
  const TRIGGER_PULSE: seq<Event> :=
    [DigitalWrite(TRIGPIN, Low), DigitalWrite(TRIGPIN, High), DigitalWrite(TRIGPIN, Low)]

  /** The effects of `sendSensorData`: nothing unless the radio is ready; then the trigger pulse, and the sensor text if a packet is available. */
  function SensorDataEvents(radio: Radio, readings: Readings, alloc: Allocation, capacity: nat): seq<Event>
    requires capacity >= 1
  {
    if !RadioReady(radio) then []
    else if alloc.AllocFailed? then TRIGGER_PULSE
    else TRIGGER_PULSE + [SendLocal(SensorPacket(alloc.packet, Strlcpy(SensorJson(readings), capacity)))]
  }

  /**
   * What `sendSensorData` can do: nothing at all when the radio is not ready;
   * otherwise the trigger pulse, then at most one packet, a broadcast text whose
   * payload is the start of the sensor text and fits the buffer with its NUL.
   */
  lemma SensorDataEventsShape(radio: Radio, readings: Readings, alloc: Allocation, capacity: nat)
    requires capacity >= 1
    ensures var events := SensorDataEvents(radio, readings, alloc, capacity);
            && (events == [] <==> !RadioReady(radio))
            && (RadioReady(radio) ==> events[..3] == TRIGGER_PULSE)
            && (|events| == 4 <==> RadioReady(radio) && alloc.Allocated?)
            && (|events| == 4 ==>
                  && events[3].SendLocal?
                  && events[3].packet.portnum == TextMessageApp
                  && events[3].packet.to == BROADCAST
                  && |events[3].packet.payload| < capacity
                  && events[3].packet.payload == CString(SensorJson(readings))[..|events[3].packet.payload|])
  {
  }

  /** Neither the trigger pulse nor a send activates a channel or writes `LED_TEMP`. */
  lemma PulseUntouched()
    ensures Activations(TRIGGER_PULSE) == 0 && LastLevel(TRIGGER_PULSE, LED_TEMP) == None
  {
    NoActivations(TRIGGER_PULSE);
    NoWritesTo(TRIGGER_PULSE, LED_TEMP);
  }

  lemma SendUntouched(packet: Packet)
    ensures Activations([SendLocal(packet)]) == 0 && LastLevel([SendLocal(packet)], LED_TEMP) == None
  {
    NoActivations([SendLocal(packet)]);
    NoWritesTo([SendLocal(packet)], LED_TEMP);
  }

  /** Appended effects that leave the channel count and `LED_TEMP` alone keep them as they were. */
  lemma Untouched(trace: seq<Event>, events: seq<Event>)
    requires Activations(events) == 0 && LastLevel(events, LED_TEMP) == None
    ensures Activations(trace + events) == Activations(trace)
    ensures LastLevel(trace + events, LED_TEMP) == LastLevel(trace, LED_TEMP)
  {
    ActivationsAppend(trace, events);
    LastLevelAppend(trace, events, LED_TEMP);
  }

  /**
   * The module.  `chReady`, a function-local static of `loop()` in the source,
   * is a field here; `trace` records every write to `LED_TEMP` and the trigger
   * pin, packet handed to the router and channel activation, in order;
   * `capacity` is the size of a packet's payload buffer.
   */
  class SensorActuatorModule {
    const build: Build
    const capacity: nat
    var lastSend: u32
    var chReady: bool
    var trace: seq<Event>

    /** The channel is activated once, exactly when the latch is set, and `LED_TEMP` is never left HIGH. */
    ghost predicate Valid()
      reads this
    {
      && capacity >= 1
      && Activations(trace) == (if chReady then 1 else 0)
      && LastLevel(trace, LED_TEMP) != Some(High)
    }

    constructor (build: Build, capacity: nat)
      requires capacity >= 1
      ensures Valid()
      ensures this.build == build && this.capacity == capacity
      ensures lastSend == 0 && !chReady && trace == []
    {
      this.build := build;
      this.capacity := capacity;
      lastSend := 0;
      chReady := false;
      trace := [];
    }

    /** `setup()`: the actuator build drives `LED_TEMP` LOW; the sensor build writes no pin. */
    method Setup()
      requires Valid() && trace == []
      modifies this
      ensures Valid()
      ensures trace == (if build == ActuatorBuild then [DigitalWrite(LED_TEMP, Low)] else [])
      ensures lastSend == old(lastSend) && chReady == old(chReady)
    {
      if build == ActuatorBuild {
        trace := trace + [DigitalWrite(LED_TEMP, Low)];
        assert trace[..0] == [];
      }
    }

    /**
     * `loop()`: the first time the radio is ready the primary channel is
     * activated and the latch set for good.  The sensor build then sends its
     * data whenever `SEND_INTERVAL` ms have passed since `lastSend` (unsigned
     * 32-bit difference), whether or not the latch is set.  `nowCheck` and
     * `nowStamp` are the two `millis()` readings.
     */
    method Loop(radio: Radio, nowCheck: u32, nowStamp: u32, readings: Readings, alloc: Allocation)
      requires Valid()
      modifies this
      ensures Valid()
      ensures old(chReady) ==> chReady
      ensures chReady == (old(chReady) || RadioReady(radio))
      ensures var due := build == SensorBuild && WrappingSub(nowCheck, old(lastSend)) >= SEND_INTERVAL;
              && lastSend == (if due then nowStamp else old(lastSend))
              && trace == old(trace)
                 + (if !old(chReady) && RadioReady(radio) then [SetActiveChannel(0)] else [])
                 + (if due then SensorDataEvents(radio, readings, alloc, capacity) else [])
    {
      ghost var activation: seq<Event> := [];
      if !chReady && RadioReady(radio) {
        var activate := [SetActiveChannel(0)];
        assert activate[..0] == [];
        ActivationsAppend(trace, activate);
        LastLevelAppend(trace, activate, LED_TEMP);
        trace := trace + activate;
        chReady := true;
        activation := activate;
      }
      ghost var latched := trace;
      assert latched == old(trace) + activation;
      if build == SensorBuild && WrappingSub(nowCheck, lastSend) >= SEND_INTERVAL {
        lastSend := nowStamp;
        SendSensorData(radio, readings, alloc);
        assert trace == latched + SensorDataEvents(radio, readings, alloc, capacity);
      } else {
        assert trace == latched + [];
      }
    }

    /**
     * `sendSensorData()` of the sensor build: when the radio is ready, pulse the
     * ultrasonic trigger, build the sensor text and, if the router hands out a
     * packet, broadcast it.
     */
    method SendSensorData(radio: Radio, readings: Readings, alloc: Allocation)
      requires Valid() && build == SensorBuild
      modifies this
      ensures Valid()
      ensures trace == old(trace) + SensorDataEvents(radio, readings, alloc, capacity)
      ensures lastSend == old(lastSend) && chReady == old(chReady)
    {
      if !RadioReady(radio) {
        assert trace + [] == trace;
        return;
      }
      PulseUntouched();
      Untouched(trace, TRIGGER_PULSE);
      trace := trace + TRIGGER_PULSE;
      var json := "{";
      json := json + ("\"temp\":\"" + readings.temp + "\",");
      json := json + ("\"humidity\":\"" + readings.hum + "\",");
      json := json + ("\"lux\":\"" + readings.lux + "\",");
      json := json + ("\"distance\":\"" + readings.dist + "\"");
      json := json + "}";
      if alloc.AllocFailed? {
        return;
      }
      var packet := alloc.packet.(payload := Strlcpy(json, capacity));
      packet := packet.(portnum := TextMessageApp, to := BROADCAST, channel := 0);
      packet := packet.(pkiEncrypted := false, wantAck := false);
      if packet.hopLimit == 0 {
        packet := packet.(hopLimit := 3);
      }
      SendUntouched(packet);
      Untouched(trace, [SendLocal(packet)]);
      trace := trace + [SendLocal(packet)];
    }

    /**
     * `handleIncoming()` of the actuator build: a text that mentions a quoted
     * sensor key flashes `LED_TEMP` (HIGH, then LOW); anything else writes no pin.
     */
    method HandleIncoming(p: Received)
      requires Valid() && build == ActuatorBuild
      modifies this
      ensures Valid()
      ensures trace == old(trace)
                + (if p.isText && IsSensorMsg(CString(p.payload))
                   then [DigitalWrite(LED_TEMP, High), DigitalWrite(LED_TEMP, Low)] else [])
      ensures p.isText && IsSensorMsg(CString(p.payload)) ==> LastLevel(trace, LED_TEMP) == Some(Low)
      ensures lastSend == old(lastSend) && chReady == old(chReady)
    {
      if !p.isText {
        assert trace + [] == trace;
        return;
      }
      var msg := CString(p.payload);
      var isSensorMsg := IsSensorMsg(msg);
      if isSensorMsg {
        var flash := [DigitalWrite(LED_TEMP, High), DigitalWrite(LED_TEMP, Low)];
        NoActivations(flash);
        ActivationsAppend(trace, flash);
        assert flash[..1] == [DigitalWrite(LED_TEMP, High)];
        LastLevelAppend(trace, flash, LED_TEMP);
        trace := trace + flash;
      } else {
        assert trace + [] == trace;
      }
    }
  }
}
