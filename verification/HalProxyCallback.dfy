/** The callback object each sub-HAL posts through: it tags the events with the sub-HAL's index and counts
    the wake-up events before they enter the proxy. */
module ProxyCallback {
  import opened Basics
  import opened SensorHandles
  import opened SensorTypes
  import opened Proxy
  import PW = PendingWrites
  import R = Registry
  import OM = OperationModes
  import WL = Wakelock
  import P = Pipeline
  import C = Conservation

  function TagEvent(event: Event, subHalIndex: size_t): Event {
    event.(sensorHandle := SetSubHalIndex(event.sensorHandle, subHalIndex),
           dynamicHandle := if event.sensorType == TYPE_DYNAMIC_SENSOR_META
                            then SetSubHalIndex(event.dynamicHandle, subHalIndex)
                            else event.dynamicHandle)
  }

  function TagEvents(events: seq<Event>, subHalIndex: size_t): (tagged: seq<Event>)
    ensures |tagged| == |events|
  {
    seq(|events|, i requires 0 <= i < |events| => TagEvent(events[i], subHalIndex))
  }

  lemma TagOneMore(events: seq<Event>, subHalIndex: size_t, n: nat)
    requires n < |events|
    ensures TagEvents(events[..n + 1], subHalIndex) == TagEvents(events[..n], subHalIndex) + [TagEvent(events[n], subHalIndex)]
  {
  }

  /** The events that getSensorInfo looks up and inserts defaults for. */
  function Inserted(infoInserts: bool, events: seq<Event>): seq<Event> {
    if infoInserts then events else []
  }

  lemma InsertOneMore(before: seq<Event>, infoInserts: bool, events: seq<Event>, event: Event)
    ensures before + Inserted(infoInserts, events + [event]) == before + Inserted(infoInserts, events) + Inserted(infoInserts, [event])
  {
  }

  /** A sub-HAL's event with a clear handle leads back to that sub-HAL and that handle, and so does the
      handle announced by a dynamic sensor event; the payload is untouched. */
  lemma TaggedEventsLeadBack(events: seq<Event>, subHalIndex: size_t, i: nat)
    requires subHalIndex < 128 && i < |events| && SubHalIndexIsClear(events[i].sensorHandle)
    ensures var e, t := events[i], TagEvents(events, subHalIndex)[i];
            && ExtractSubHalIndex(t.sensorHandle) == subHalIndex && ClearSubHalIndex(t.sensorHandle) == e.sensorHandle
            && t.sensorType == e.sensorType && t.scalar == e.scalar && t.data2 == e.data2
            && (e.sensorType == TYPE_DYNAMIC_SENSOR_META && SubHalIndexIsClear(e.dynamicHandle) ==>
                  ExtractSubHalIndex(t.dynamicHandle) == subHalIndex && ClearSubHalIndex(t.dynamicHandle) == e.dynamicHandle)
            && (e.sensorType != TYPE_DYNAMIC_SENSOR_META ==> t.dynamicHandle == e.dynamicHandle)
  {
    PackThenUnpack(events[i].sensorHandle, subHalIndex);
    if SubHalIndexIsClear(events[i].dynamicHandle) {
      PackThenUnpack(events[i].dynamicHandle, subHalIndex);
    }
  }

  /** Whatever the handle, clear or not: tagging keeps its low bits and sets the index, so tagging again changes
      nothing. */
  lemma TaggingSetsIndex(events: seq<Event>, subHalIndex: size_t, i: nat)
    requires i < |events|
    ensures var t := TagEvents(events, subHalIndex)[i];
            && LowBits(t.sensorHandle) == LowBits(events[i].sensorHandle)
            && SetSubHalIndex(t.sensorHandle, subHalIndex) == t.sensorHandle
            && (t.sensorType == TYPE_DYNAMIC_SENSOR_META ==>
                  LowBits(t.dynamicHandle) == LowBits(events[i].dynamicHandle)
                  && SetSubHalIndex(t.dynamicHandle, subHalIndex) == t.dynamicHandle)
    ensures TagEvents(TagEvents(events, subHalIndex), subHalIndex)[i] == TagEvents(events, subHalIndex)[i]
  {
    SettingIsUnion(events[i].sensorHandle, subHalIndex, subHalIndex);
    SettingIsUnion(events[i].dynamicHandle, subHalIndex, subHalIndex);
  }

  class HalProxyCallback {
    const proxy: HalProxy
    const subHalIndex: size_t

    constructor (proxy: HalProxy, subHalIndex: size_t)
      ensures this.proxy == proxy && this.subHalIndex == subHalIndex
    {
      this.proxy, this.subHalIndex := proxy, subHalIndex;
    }

    /** One event: tagged, and whether its sensor is a wake-up sensor. */
    method ProcessEvent(eventIn: Event) returns (event: Event, wakes: bool)
      requires proxy.Tracked()
      modifies proxy`sensors, proxy`lookedUp
      ensures event == TagEvent(eventIn, subHalIndex)
      ensures wakes <==> event.sensorHandle in WakeHandles(old(proxy.sensors))
      ensures WakeHandles(proxy.sensors) == WakeHandles(old(proxy.sensors)) && proxy.Tracked()
      ensures proxy.lookedUp == old(proxy.lookedUp) + Inserted(proxy.infoInserts, [event])
    {
      event := eventIn.(sensorHandle := SetSubHalIndex(eventIn.sensorHandle, subHalIndex));
      if event.sensorType == TYPE_DYNAMIC_SENSOR_META {
        event := event.(dynamicHandle := SetSubHalIndex(event.dynamicHandle, subHalIndex));
      }
      var sensor := proxy.GetSensorInfo(event);
      wakes := IsWakeUp(sensor);
    }

    method ProcessEvents(events: seq<Event>) returns (eventsOut: seq<Event>, numWakeupEvents: nat)
      requires proxy.Tracked()
      modifies proxy`sensors, proxy`lookedUp
      ensures eventsOut == TagEvents(events, subHalIndex)
      ensures numWakeupEvents == WakeUps(WakeHandles(old(proxy.sensors)), eventsOut)
      ensures WakeHandles(proxy.sensors) == WakeHandles(old(proxy.sensors)) && proxy.Tracked()
      ensures proxy.lookedUp == old(proxy.lookedUp) + Inserted(proxy.infoInserts, eventsOut)
    {
      numWakeupEvents := 0;
      eventsOut := [];
      ghost var wake := WakeHandles(proxy.sensors);
      for i := 0 to |events|
        invariant eventsOut == TagEvents(events[..i], subHalIndex)
        invariant numWakeupEvents == WakeUps(wake, eventsOut)
        invariant WakeHandles(proxy.sensors) == wake && proxy.Tracked()
        invariant proxy.lookedUp == old(proxy.lookedUp) + Inserted(proxy.infoInserts, eventsOut)
      {
        var event, wakes := ProcessEvent(events[i]);
        WakeUpsAppend(wake, eventsOut, event);
        InsertOneMore(old(proxy.lookedUp), proxy.infoInserts, eventsOut, event);
        TagOneMore(events, subHalIndex, i);
        eventsOut := eventsOut + [event];
        if wakes {
          numWakeupEvents := numWakeupEvents + 1;
        }
      }
      assert events[..|events|] == events;
    }

    /** An empty batch, or one posted while the threads are stopped, is ignored. The two assertions about
        `locked` are compiled out of release builds; they are hypotheses of CallbackPostIsFair instead. */
    method PostEvents(events: seq<Event>, locked: bool, als: seq<Event>, available: nat, writeOk: bool, now: int)
      returns (written: seq<Event>)
      requires |als| == |events| && proxy.Tracked()
      modifies proxy`sensors, proxy`lookedUp
      modifies proxy`pending, proxy`size, proxy`most, proxy`refCount, proxy`timeoutStart, proxy`wakeCalls
      ensures WakeHandles(proxy.sensors) == WakeHandles(old(proxy.sensors)) && proxy.Tracked()
      ensures events == [] || !proxy.running ==>
                written == [] && proxy.Queue() == old(proxy.Queue()) && proxy.Lock() == old(proxy.Lock())
                && proxy.lookedUp == old(proxy.lookedUp)
      ensures events != [] && proxy.running ==>
                var tagged := TagEvents(events, subHalIndex);
                var wakeups := WakeUps(WakeHandles(old(proxy.sensors)), tagged);
                && PostedTo(old(proxy.Queue()), proxy.Queue(), proxy.maxPending, Corrected(tagged, als), wakeups, available, writeOk, written)
                && proxy.Lock() == (if locked then WL.Increment(old(proxy.Lock()), wakeups, now) else old(proxy.Lock()))
                && proxy.lookedUp == old(proxy.lookedUp) + Inserted(proxy.infoInserts, tagged)
    {
      if events == [] || !proxy.running {
        return [];
      }
      var processedEvents, numWakeupEvents := ProcessEvents(events);
      assert proxy.Queue() == old(proxy.Queue()) && proxy.Lock() == old(proxy.Lock());
      written := proxy.PostEventsToMessageQueue(processedEvents, numWakeupEvents, locked, als, available, writeOk, now);
    }
  }

  /** The light correction leaves the wake-up status of every event as it was. */
  ghost predicate CorrectionIsNeutral(wake: set<int32>, events: seq<Event>, als: seq<Event>)
    requires |als| == |events|
  {
    forall i | 0 <= i < |events| && events[i].sensorType == TYPE_QTI_WISE_LIGHT ::
      als[i].sensorHandle in wake <==> events[i].sensorHandle in wake
  }

  lemma {:induction false} CorrectionKeepsWakeUps(wake: set<int32>, events: seq<Event>, als: seq<Event>)
    requires |als| == |events| && CorrectionIsNeutral(wake, events, als)
    ensures WakeUps(wake, Corrected(events, als)) == WakeUps(wake, events)
  {
    if events != [] {
      assert Corrected(events, als)[1..] == Corrected(events[1..], als[1..]);
      CorrectionKeepsWakeUps(wake, events[1..], als[1..]);
    }
  }

  /** The light correction answers with the event's own handle, or with zero to drop it. It is neutral
      when neither zero nor the vendor's light sensors are wake-up handles. */
  lemma DroppingLightIsNeutral(wake: set<int32>, events: seq<Event>, als: seq<Event>)
    requires |als| == |events| && 0 !in wake
    requires forall i | 0 <= i < |events| && events[i].sensorType == TYPE_QTI_WISE_LIGHT ::
               events[i].sensorHandle !in wake && als[i].sensorHandle in {events[i].sensorHandle, 0}
    ensures CorrectionIsNeutral(wake, events, als)
  {
  }

  /** As a light correction answers: with the event's own handle, or with zero to drop it. */
  predicate IsCorrection(events: seq<Event>, als: seq<Event>)
    requires |als| == |events|
  {
    forall i | 0 <= i < |events| && events[i].sensorType == TYPE_QTI_WISE_LIGHT ::
      als[i].sensorHandle == events[i].sensorHandle || als[i].sensorHandle == 0
  }

  /** If the event is a light event and dropped, it wakes as little or as much as the handle zero. */
  predicate DropsLikeZero(wake: set<int32>, event: Event, al: Event) {
    event.sensorType == TYPE_QTI_WISE_LIGHT && al.sensorHandle == 0 ==> (event.sensorHandle in wake <==> 0 in wake)
  }

  predicate DropsOnlyLikeZero(wake: set<int32>, events: seq<Event>, als: seq<Event>)
    requires |als| == |events|
  {
    forall i | 0 <= i < |events| :: DropsLikeZero(wake, events[i], als[i])
  }

  /** No event of the vendor's light sensor differs from the handle zero in waking. As long as zero is no wake-up
      handle: no light sensor in the batch is a wake-up sensor. */
  predicate LightsWakeLikeZero(wake: set<int32>, events: seq<Event>) {
    forall i | 0 <= i < |events| && events[i].sensorType == TYPE_QTI_WISE_LIGHT ::
      events[i].sensorHandle in wake <==> 0 in wake
  }

  /** The count of a batch survives its light correction exactly when nothing is dropped that wakes unlike zero; all
      changes go in one direction, so none makes up for another. */
  lemma {:induction false} DropsChangeCount(wake: set<int32>, events: seq<Event>, als: seq<Event>)
    requires |als| == |events| && IsCorrection(events, als)
    ensures WakeUps(wake, Corrected(events, als)) == WakeUps(wake, events) <==> DropsOnlyLikeZero(wake, events, als)
    ensures if 0 in wake then WakeUps(wake, Corrected(events, als)) >= WakeUps(wake, events)
            else WakeUps(wake, Corrected(events, als)) <= WakeUps(wake, events)
  {
    if events != [] {
      var rest, alsRest := events[1..], als[1..];
      assert Corrected(events, als)[1..] == Corrected(rest, alsRest);
      DropsChangeCount(wake, rest, alsRest);
      SplitDrops(wake, events, als);
    }
  }

  lemma SplitDrops(wake: set<int32>, events: seq<Event>, als: seq<Event>)
    requires |als| == |events| && events != []
    ensures DropsOnlyLikeZero(wake, events, als) <==>
              DropsLikeZero(wake, events[0], als[0]) && DropsOnlyLikeZero(wake, events[1..], als[1..])
  {
    assert forall i | 1 <= i < |events| :: events[i] == events[1..][i - 1] && als[i] == als[1..][i - 1];
  }

  /** The post that the proxy makes of a callback's batch, tagged, counted and then corrected. */
  function PostOf(wake: set<int32>, tagged: seq<Event>, als: seq<Event>, token: Option<nat>,
                  available: nat, writeOk: bool, now: int): P.Step
    requires |als| == |tagged|
  {
    P.Post(Corrected(tagged, als), WakeUps(wake, tagged), token, available, writeOk, now)
  }

  /** Nothing of the post is dropped for want of room. */
  predicate FindsRoom(cfg: P.Config, w: P.World, tagged: seq<Event>, als: seq<Event>, token: Option<nat>,
                      available: nat, writeOk: bool, now: int)
    requires |als| == |tagged| && w.clock <= now && (token.Some? ==> token.value < |w.tokens|)
  {
    !P.Drops(cfg, w, PostOf(cfg.wake, tagged, als, token, available, writeOk, now))
  }

  lemma CorrectedPostIsFair(cfg: P.Config, w: P.World, tagged: seq<Event>, als: seq<Event>,
                            token: Option<nat>, available: nat, writeOk: bool, now: int)
    requires |als| == |tagged| && w.clock <= now && (token.Some? ==> token.value < |w.tokens|)
    requires token.Some? <==> WakeUps(cfg.wake, tagged) > 0
    requires FindsRoom(cfg, w, tagged, als, token, available, writeOk, now)
    ensures C.Fair(cfg, w, PostOf(cfg.wake, tagged, als, token, available, writeOk, now))
       <==> WakeUps(cfg.wake, Corrected(tagged, als)) == WakeUps(cfg.wake, tagged)
  {
    var corrected := Corrected(tagged, als);
    var n := PW.Direct(w.queue, corrected, available, writeOk);
    assert corrected[..n] + corrected[n..] == corrected;
    assert corrected[..n] + [] == corrected[..n];
  }

  /** What a callback posts keeps the balance of the shared count, with its assertion met and room for all of it,
      exactly when the light correction drops no event that wakes unlike the handle zero. */
  lemma CallbackPostIsFair(cfg: P.Config, w: P.World, events: seq<Event>, als: seq<Event>, subHalIndex: size_t,
                           token: Option<nat>, available: nat, writeOk: bool, now: int)
    requires |als| == |events| && w.clock <= now && (token.Some? ==> token.value < |w.tokens|)
    requires token.Some? <==> WakeUps(cfg.wake, TagEvents(events, subHalIndex)) > 0
    requires IsCorrection(TagEvents(events, subHalIndex), als)
    requires FindsRoom(cfg, w, TagEvents(events, subHalIndex), als, token, available, writeOk, now)
    ensures var tagged := TagEvents(events, subHalIndex);
            C.Fair(cfg, w, PostOf(cfg.wake, tagged, als, token, available, writeOk, now)) <==> DropsOnlyLikeZero(cfg.wake, tagged, als)
  {
    CorrectedPostIsFair(cfg, w, TagEvents(events, subHalIndex), als, token, available, writeOk, now);
    DropsChangeCount(cfg.wake, TagEvents(events, subHalIndex), als);
  }

  /** So a neutral correction keeps the balance, whatever else it answers. */
  lemma NeutralCorrectionIsFair(cfg: P.Config, w: P.World, events: seq<Event>, als: seq<Event>, subHalIndex: size_t,
                                token: Option<nat>, available: nat, writeOk: bool, now: int)
    requires |als| == |events| && w.clock <= now && (token.Some? ==> token.value < |w.tokens|)
    requires token.Some? <==> WakeUps(cfg.wake, TagEvents(events, subHalIndex)) > 0
    requires CorrectionIsNeutral(cfg.wake, TagEvents(events, subHalIndex), als)
    requires FindsRoom(cfg, w, TagEvents(events, subHalIndex), als, token, available, writeOk, now)
    ensures C.Fair(cfg, w, PostOf(cfg.wake, TagEvents(events, subHalIndex), als, token, available, writeOk, now))
  {
    CorrectedPostIsFair(cfg, w, TagEvents(events, subHalIndex), als, token, available, writeOk, now);
    CorrectionKeepsWakeUps(cfg.wake, TagEvents(events, subHalIndex), als);
  }

  function AllDropped(events: seq<Event>): (als: seq<Event>)
    ensures |als| == |events|
  {
    seq(|events|, i requires 0 <= i < |events| => events[i].(sensorHandle := 0))
  }

  /** The guard a sub-HAL can check before it posts: whatever the light correction will answer, the balance is kept
      exactly when every light event of the batch wakes like the handle zero. */
  lemma EveryCorrectionIsFair(cfg: P.Config, w: P.World, events: seq<Event>, subHalIndex: size_t,
                              token: Option<nat>, available: nat, writeOk: bool, now: int)
    requires w.clock <= now && (token.Some? ==> token.value < |w.tokens|)
    requires token.Some? <==> WakeUps(cfg.wake, TagEvents(events, subHalIndex)) > 0
    requires FindsRoom(cfg, w, TagEvents(events, subHalIndex), TagEvents(events, subHalIndex), token, available, writeOk, now)
    ensures var tagged := TagEvents(events, subHalIndex);
            (forall als | |als| == |tagged| && IsCorrection(tagged, als) ::
               C.Fair(cfg, w, PostOf(cfg.wake, tagged, als, token, available, writeOk, now)))
            <==> LightsWakeLikeZero(cfg.wake, tagged)
  {
    var tagged := TagEvents(events, subHalIndex);
    forall als | |als| == |tagged| && IsCorrection(tagged, als)
      ensures C.Fair(cfg, w, PostOf(cfg.wake, tagged, als, token, available, writeOk, now)) <==> DropsOnlyLikeZero(cfg.wake, tagged, als)
    {
      CallbackPostIsFair(cfg, w, events, als, subHalIndex, token, available, writeOk, now);
    }
    DroppingAllShowsLights(cfg.wake, tagged);
  }

  lemma DroppingAllShowsLights(wake: set<int32>, events: seq<Event>)
    ensures IsCorrection(events, AllDropped(events))
    ensures DropsOnlyLikeZero(wake, events, AllDropped(events)) <==> LightsWakeLikeZero(wake, events)
  {
    assert forall i | 0 <= i < |events| :: AllDropped(events)[i].sensorHandle == 0;
  }

  // ---- A wake-up light sensor leaks ----

  const WAKE_UP_LIGHT: Event := Event(2, TYPE_QTI_WISE_LIGHT, 0.0, 0.0, 0)
  const LIGHT_WAKES: P.Config := P.Config(10, 1000, {WAKE_UP_LIGHT.sensorHandle})

  lemma LightIsCounted()
    ensures TagEvents([WAKE_UP_LIGHT], 0) == [WAKE_UP_LIGHT] && WakeUps(LIGHT_WAKES.wake, [WAKE_UP_LIGHT]) == 1
    ensures Corrected([WAKE_UP_LIGHT], AllDropped([WAKE_UP_LIGHT])) == AllDropped([WAKE_UP_LIGHT])
    ensures WakeUps(LIGHT_WAKES.wake, AllDropped([WAKE_UP_LIGHT])) == 0
  {
    OrByteZero(0);
    assert [WAKE_UP_LIGHT][1..] == [] && AllDropped([WAKE_UP_LIGHT])[1..] == [];
  }

  /** In a run the proxy can make: a light sensor that is a wake-up sensor posts one event under a live wakelock, the
      correction drops it, and the wakelock is released. One reference is left that no token and no event, written,
      pending or yet to be acknowledged, accounts for. */
  lemma DroppedWakeUpLightLeaks()
    ensures var post := PostOf(LIGHT_WAKES.wake, TagEvents([WAKE_UP_LIGHT], 0), AllDropped([WAKE_UP_LIGHT]), Some(0), 0, true, 0);
            && P.Reachable(LIGHT_WAKES, C.HOLDING) && C.Good(LIGHT_WAKES, C.HOLDING)
            && P.Enabled(C.HOLDING, post) && !P.Drops(LIGHT_WAKES, C.HOLDING, post) && !C.Fair(LIGHT_WAKES, C.HOLDING, post)
    ensures exists w :: P.Reachable(LIGHT_WAKES, w) && w.lock.refCount == 1 && w.tokens == [] && w.consumed == 0
                        && C.Live(LIGHT_WAKES, w) == 0 && !C.Balanced(LIGHT_WAKES, w)
  {
    var dropped := AllDropped([WAKE_UP_LIGHT]);
    LightIsCounted();
    C.HoldingIsReached(LIGHT_WAKES);
    assert dropped[0..] == dropped;
    CorrectedPostIsFair(LIGHT_WAKES, C.HOLDING, [WAKE_UP_LIGHT], dropped, Some(0), 0, true, 0);
    var posted, w := C.PostAndRelease(LIGHT_WAKES, dropped, 1);
    C.PostLive(LIGHT_WAKES, C.HOLDING, dropped, 1, 0, true);
    assert C.Live(LIGHT_WAKES, w) == C.Live(LIGHT_WAKES, posted);
  }

  // ---- A default entry that is disabled like a sensor ----

  const LIGHT: SensorInfo := SensorInfo(2, TYPE_QTI_WISE_LIGHT, 0)
  const MOTION: SensorInfo := SensorInfo(1, 17, FLAG_WAKE_UP)
  const LISTS: seq<seq<SensorInfo>> := [[LIGHT, MOTION]]

  const LIGHT_EVENT: Event := Event(2, TYPE_QTI_WISE_LIGHT, 0.0, 0.0, 0)
  const MOTION_EVENT: Event := Event(1, 17, 0.0, 0.0, 0)
  const DROPPED_EVENT: Event := LIGHT_EVENT.(sensorHandle := 0)

  lemma TableOfLists()
    ensures R.RegisterAll(R.Entries(LISTS)) == R.Table(map[2 := R.AsLight(LIGHT), 1 := MOTION], None)
  {
    OrByteZero(0);
    assert LISTS[..0] == [] && R.Entries([]) == [];
    assert R.Tagged(LISTS[0], 0) == [R.Entry(0, LIGHT), R.Entry(0, MOTION)];
    var light, motion := R.Entry(0, LIGHT), R.Entry(0, MOTION);
    assert [light, motion][..1] == [light] && [light][..0] == [];
    assert !R.SupportsDirect(LIGHT) && !R.SupportsDirect(MOTION);
    assert R.Register(R.Table(map[], None), light) == R.Table(map[2 := R.AsLight(LIGHT)], None);
    assert R.RegisterAll([light]) == R.Table(map[2 := R.AsLight(LIGHT)], None);
    assert R.RegisterAll([light, motion]) == R.Register(R.RegisterAll([light]), motion);
  }

  lemma MotionWakes()
    ensures WakeHandles(R.RegisterAll(R.Entries(LISTS)).sensors) == {1}
    ensures TagEvents([LIGHT_EVENT, MOTION_EVENT], 0) == [LIGHT_EVENT, MOTION_EVENT]
    ensures WakeUps({1}, [LIGHT_EVENT, MOTION_EVENT]) == 1
  {
    TableOfLists();
    OrByteZero(0);
    assert IsWakeUp(MOTION) && !IsWakeUp(R.AsLight(LIGHT));
    assert [LIGHT_EVENT, MOTION_EVENT][1..] == [MOTION_EVENT] && [MOTION_EVENT][1..] == [];
    assert WakeUps({1}, [MOTION_EVENT]) == 1;
  }

  method StartProxy(infoInserts: bool) returns (proxy: HalProxy)
    ensures fresh(proxy) && fresh(proxy.subHalModes) && proxy.Tracked() && proxy.lists == LISTS && proxy.lookedUp == []
    ensures proxy.running && proxy.Queue() == PW.EMPTY && proxy.maxPending == 10 && proxy.dynamicSensors == map[]
    ensures WakeHandles(proxy.sensors) == {1}
  {
    var modes := new OM.Mode[1](_ => OM.NORMAL);
    proxy := new HalProxy(10, 1000, infoInserts, LISTS, modes);
    MotionWakes();
    var _, _ := proxy.InitializeCommon(0, true, [OM.OK]);
  }

  /** The first batch, with a light event that the correction dropped, finds no room. */
  method QueueDroppedLight(proxy: HalProxy)
    requires proxy.running && proxy.Queue() == PW.EMPTY && proxy.maxPending == 10
    requires WakeHandles(proxy.sensors) == {1} && proxy.Tracked()
    modifies proxy`sensors, proxy`lookedUp
    modifies proxy`pending, proxy`size, proxy`most, proxy`refCount, proxy`timeoutStart, proxy`wakeCalls
    ensures proxy.pending == [PW.Batch([DROPPED_EVENT, MOTION_EVENT], 1)] && proxy.Tracked()
  {
    var callback := new HalProxyCallback(proxy, 0);
    var events, als := [LIGHT_EVENT, MOTION_EVENT], [DROPPED_EVENT, MOTION_EVENT];
    MotionWakes();
    var _ := callback.PostEvents(events, true, als, 0, true, 1);
    assert Corrected(events, als) == als && als[0..] == als;
  }

  /** Its first chunk is lost, and its wake-up events are counted. */
  method LoseDroppedLight(proxy: HalProxy)
    requires proxy.running && proxy.writer.Idle? && proxy.Tracked()
    requires proxy.pending == [PW.Batch([DROPPED_EVENT, MOTION_EVENT], 1)]
    modifies proxy`pending, proxy`size, proxy`writer, proxy`sensors, proxy`lookedUp, proxy`refCount, proxy`wakeCalls
    ensures DROPPED_EVENT in proxy.lookedUp && proxy.Tracked() && proxy.writer.Idle?
  {
    var _ := proxy.BeginPendingWrite(1);
    proxy.FinishPendingWrite(false);
    assert [DROPPED_EVENT, MOTION_EVENT][..1] == [DROPPED_EVENT];
    proxy.EndPendingWrite();
  }

  /** A run of the proxy in which disabling all sensors reaches a handle no sub-HAL ever offered: the dropped light
      event sits, with handle zero, in a chunk that cannot be written and is not the last of its batch; counting its
      wake-up events leaves a default entry in the table, and the next initialisation disables it. */
  method DroppedLightIsDisabled(infoInserts: bool) returns (disabled: set<(size_t, int32)>)
    ensures (0, 0) in disabled && !R.IsSensor(LISTS, {}, 0, 0)
  {
    var proxy := StartProxy(infoInserts);
    QueueDroppedLight(proxy);
    LoseDroppedLight(proxy);
    var result;
    disabled, result := proxy.InitializeCommon(2, true, [OM.OK]);
    R.AstrayIsReached(LISTS, proxy.lookedUp, {}, DROPPED_EVENT);
  }
}
