/** The values that travel between sub-HALs, the proxy and the framework. */
module SensorTypes {
  import opened SensorHandles

  /** `scalar` is u.scalar (also u.data[0]), `data2` is u.data[2], `dynamicHandle` is u.dynamic.sensorHandle. */
  datatype Event = Event(sensorHandle: int32, sensorType: int, scalar: real, data2: real, dynamicHandle: int32)

  datatype SensorInfo = SensorInfo(sensorHandle: int32, sensorType: int, flags: bv32)

  // Sensor types and flag bits of the Android sensors HAL 1.0 interface.
  const TYPE_LIGHT: int := 5
  const TYPE_DYNAMIC_SENSOR_META: int := 32
  const TYPE_QTI_WISE_LIGHT: int := 33171103
  const FLAG_WAKE_UP: bv32 := 0x1
  const MASK_DIRECT: bv32 := 0xF80

  /** What reading a missing key of the sensor map inserts. */
  const DEFAULT_SENSOR: SensorInfo := SensorInfo(0, 0, 0)

  predicate IsWakeUp(info: SensorInfo) {
    info.flags & FLAG_WAKE_UP != 0
  }

  /** The handles registered with the WAKE_UP flag. */
  function WakeHandles(sensors: map<int32, SensorInfo>): set<int32> {
    set h | h in sensors && IsWakeUp(sensors[h])
  }

  /** How many of the events carry a wake-up handle. */
  function WakeUps(wake: set<int32>, events: seq<Event>): nat {
    if events == [] then 0
    else (if events[0].sensorHandle in wake then 1 else 0) + WakeUps(wake, events[1..])
  }

  lemma {:induction false} WakeUpsConcat(wake: set<int32>, a: seq<Event>, b: seq<Event>)
    ensures WakeUps(wake, a + b) == WakeUps(wake, a) + WakeUps(wake, b)
  {
    if a == [] {
      assert a + b == b;
    } else {
      assert (a + b)[1..] == a[1..] + b;
      WakeUpsConcat(wake, a[1..], b);
    }
  }

  lemma WakeUpsSplit(wake: set<int32>, events: seq<Event>, n: nat)
    requires n <= |events|
    ensures WakeUps(wake, events) == WakeUps(wake, events[..n]) + WakeUps(wake, events[n..])
  {
    assert events == events[..n] + events[n..];
    WakeUpsConcat(wake, events[..n], events[n..]);
  }

  /** What reading the sensor map by the handles of the events leaves in it. */
  function WithDefaults(sensors: map<int32, SensorInfo>, events: seq<Event>): map<int32, SensorInfo> {
    map h | h in sensors.Keys + (set e | e in events :: e.sensorHandle) ::
      if h in sensors then sensors[h] else DEFAULT_SENSOR
  }

  lemma OneMoreRead(sensors: map<int32, SensorInfo>, events: seq<Event>, n: nat)
    requires n < |events|
    ensures var before := WithDefaults(sensors, events[..n]);
            var handle := events[n].sensorHandle;
            WithDefaults(sensors, events[..n + 1]) == if handle in before then before else before[handle := DEFAULT_SENSOR]
  {
    assert events[..n + 1] == events[..n] + [events[n]];
  }

  /** The entries that such a read inserts never make a handle a wake-up handle. */
  lemma DefaultsAreSilent(sensors: map<int32, SensorInfo>, events: seq<Event>)
    ensures WakeHandles(WithDefaults(sensors, events)) == WakeHandles(sensors)
  {
  }

  lemma DefaultsCompose(sensors: map<int32, SensorInfo>, earlier: seq<Event>, more: seq<Event>)
    ensures WithDefaults(WithDefaults(sensors, earlier), more) == WithDefaults(sensors, earlier + more)
  {
  }

  lemma NothingReadYet(sensors: map<int32, SensorInfo>)
    ensures WithDefaults(sensors, []) == sensors
  {
  }
}
