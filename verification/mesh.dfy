/** Optional values, standing for PHP's `null` and for fields a command may leave out. */
module Wrappers {
  datatype Option<+T> = None | Some(value: T)
}

/**
 * What the firmware modules see of the Meshtastic node around them: packets,
 * the router and node database (as a snapshot of the facts `radioReady` tests),
 * the payload copy into a packet, 32-bit `millis()` arithmetic, and the trace of
 * effects (pin writes, packets handed to the router, channel activation).
 */
module Mesh {
  import opened Wrappers
  import opened Strings

  const U32_MODULUS: int := 0x1_0000_0000

  /** An `unsigned long` on the node's 32-bit microcontroller, e.g. a `millis()` reading. */
  type u32 = x: int | 0 <= x < 0x1_0000_0000

  /**
   * `a - b` on `unsigned long`: the difference wraps modulo 2^32, so the time
   * elapsed since `b` is right even when `millis()` has rolled over since then.
   */
  function WrappingSub(a: u32, b: u32): (r: u32)
    ensures (b + r) % U32_MODULUS == a
    ensures b <= a ==> r == a - b
    ensures a < b ==> r == a - b + U32_MODULUS
  {
    (a - b) % U32_MODULUS
  }

  /** An interval `d` shorter than the counter's period is measured exactly across a rollover. */
  lemma ElapsedAcrossRollover(last: u32, d: u32)
    ensures WrappingSub((last + d) % U32_MODULUS, last) == d
  {
    var now: u32 := (last + d) % U32_MODULUS;
    if last + d < U32_MODULUS {
      assert now == last + d;
    } else {
      assert now == last + d - U32_MODULUS;
    }
  }

  /** The destination of a broadcast packet (`p->to = 0xFFFFFFFF`). */
  const BROADCAST: u32 := 0xFFFF_FFFF

  datatype Level = Low | High

  datatype PortNum = TextMessageApp | OtherApp(number: nat)

  /** The fields of a `meshtastic_MeshPacket` that the modules read or write. */
  datatype Packet = Packet(
    payload: seq<char>,
    portnum: PortNum,
    to: u32,
    channel: nat,
    hopLimit: nat,
    wantAck: bool,
    pkiEncrypted: bool)

  /** The outcome of `router->allocForSending()`: null, or a packet with the router's defaults. */
  datatype Allocation = AllocFailed | Allocated(packet: Packet)

  /** What `radioReady()` inspects: `router`, `nodeDB`, the node number and the queue's `maxlen`. */
  datatype Radio = Radio(hasRouter: bool, hasNodeDb: bool, nodeNum: u32, queueMaxLen: nat)

  /** An incoming packet as the handlers see it: `isTextPayload(p)`, and the payload buffer. */
  datatype Received = Received(isText: bool, payload: seq<char>)

  /** The sensor readings as `String(...)` formats them: temperature, humidity, light level, distance. */
  datatype Readings = Readings(temp: string, hum: string, lux: string, dist: string)

  /** An effect on the world, in the order the firmware causes it. */
  datatype Event =
    | DigitalWrite(pin: nat, level: Level)
    | SendLocal(packet: Packet)
    | SetActiveChannel(index: nat)

  /**
   * `strlcpy(dst, src, size)` followed by `strlen(dst)`: the characters of the C
   * string `src` that fit in a buffer of `size` bytes with room left for the NUL.
   */
  function Strlcpy(src: string, size: nat): (r: seq<char>)
    requires size >= 1
    ensures |r| <= size - 1
    ensures |r| <= |CString(src)| && r == CString(src)[..|r|]
    ensures |CString(src)| < size ==> r == CString(src)
    ensures |CString(src)| >= size ==> |r| == size - 1
  {
    var text := CString(src);
    if |text| < size then text else text[..size - 1]
  }

  /** The number of `channels.setActiveByIndex` calls in a trace. */
  ghost function Activations(trace: seq<Event>): nat
  {
    if trace == [] then 0
    else Activations(trace[..|trace| - 1]) + (if trace[|trace| - 1].SetActiveChannel? then 1 else 0)
  }

  lemma {:induction false} ActivationsAppend(a: seq<Event>, b: seq<Event>)
    ensures Activations(a + b) == Activations(a) + Activations(b)
    decreases |b|
  {
    if b == [] {
      assert a + b == a;
    } else {
      var b' := b[..|b| - 1];
      assert (a + b)[..|a + b| - 1] == a + b';
      ActivationsAppend(a, b');
    }
  }

  /** The level most recently written to `pin` in a trace, if any. */
  ghost function LastLevel(trace: seq<Event>, pin: nat): Option<Level>
  {
    if trace == [] then None
    else
      var e := trace[|trace| - 1];
      if e.DigitalWrite? && e.pin == pin then Some(e.level) else LastLevel(trace[..|trace| - 1], pin)
  }

  /** Later writes to a pin hide earlier ones; a stretch without writes to it changes nothing. */
  lemma {:induction false} LastLevelAppend(a: seq<Event>, b: seq<Event>, pin: nat)
    ensures LastLevel(a + b, pin) == if LastLevel(b, pin).Some? then LastLevel(b, pin) else LastLevel(a, pin)
    decreases |b|
  {
    if b == [] {
      assert a + b == a;
    } else {
      var b' := b[..|b| - 1];
      assert (a + b)[..|a + b| - 1] == a + b';
      LastLevelAppend(a, b', pin);
    }
  }

  /** A stretch of effects without a channel activation leaves the count where it was. */
  lemma {:induction false} NoActivations(events: seq<Event>)
    requires forall i :: 0 <= i < |events| ==> !events[i].SetActiveChannel?
    ensures Activations(events) == 0
    decreases |events|
  {
    if events != [] {
      NoActivations(events[..|events| - 1]);
    }
  }

  /** A stretch of effects that never writes `pin` says nothing about its level. */
  lemma {:induction false} NoWritesTo(events: seq<Event>, pin: nat)
    requires forall i :: 0 <= i < |events| ==> !(events[i].DigitalWrite? && events[i].pin == pin)
    ensures LastLevel(events, pin) == None
    decreases |events|
  {
    if events != [] {
      NoWritesTo(events[..|events| - 1], pin);
    }
  }
}
