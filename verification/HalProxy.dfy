/** The proxy itself: the state its threads share, updated in place by its methods. */
module Proxy {
  import opened Basics
  import opened SensorHandles
  import opened SensorTypes
  import PW = PendingWrites
  import WL = Wakelock
  import R = Registry
  import OM = OperationModes

  /** The events of a post after AlsCorrection::process saw those of the vendor's light sensor. */
  function Corrected(events: seq<Event>, als: seq<Event>): (r: seq<Event>)
    requires |als| == |events|
    ensures |r| == |events|
  {
    seq(|events|, i requires 0 <= i < |events| =>
      if events[i].sensorType == TYPE_QTI_WISE_LIGHT then als[i] else events[i])
  }

  /** `part` is what became of the events from number `from` on: a light event is the whole answer of the correction,
      every other one the whole posted event. */
  predicate IsPartOf(part: seq<Event>, events: seq<Event>, als: seq<Event>, from: nat)
    requires |als| == |events|
  {
    && from + |part| <= |events|
    && forall i | 0 <= i < |part| ::
         part[i] == if events[from + i].sensorType == TYPE_QTI_WISE_LIGHT then als[from + i] else events[from + i]
  }

  lemma SplitParts(part: seq<Event>, events: seq<Event>, als: seq<Event>, n: nat)
    requires |als| == |events| == |part| && n <= |part| && IsPartOf(part, events, als, 0)
    ensures IsPartOf(part[..n], events, als, 0) && IsPartOf(part[n..], events, als, n)
  {
    assert forall i | 0 <= i < |part| - n :: part[n..][i] == part[n + i];
  }

  /** A post of `events` took the queue from `q` to `q'` and wrote `written` straight to the message queue. */
  predicate PostedTo(q: PW.Queue, q': PW.Queue, maxPending: nat, events: seq<Event>, wakeups: nat,
                     available: nat, writeOk: bool, written: seq<Event>) {
    && q' == PW.PostTo(q, maxPending, events, wakeups, available, writeOk)
    && written == events[..PW.Direct(q, events, available, writeOk)]
  }

  /** Either nothing was queued, or the rest of the batch behind the events written directly. */
  predicate TailIsPart(before: seq<PW.Batch>, after: seq<PW.Batch>, events: seq<Event>, als: seq<Event>, written: seq<Event>)
    requires |als| == |events|
  {
    after == before
    || (|after| == |before| + 1 && after[..|before|] == before
        && |written| + |after[|before|].events| == |events| && IsPartOf(after[|before|].events, events, als, |written|))
  }

  lemma CorrectedIsPart(events: seq<Event>, als: seq<Event>)
    requires |als| == |events|
    ensures IsPartOf(Corrected(events, als), events, als, 0)
  {
  }

  /** What a post of the corrected batch writes and queues. */
  lemma PartsArePosted(q: PW.Queue, q': PW.Queue, maxPending: nat, events: seq<Event>, als: seq<Event>,
                       wakeups: nat, available: nat, writeOk: bool, written: seq<Event>)
    requires |als| == |events|
    requires PostedTo(q, q', maxPending, Corrected(events, als), wakeups, available, writeOk, written)
    ensures IsPartOf(written, events, als, 0) && TailIsPart(q.pending, q'.pending, events, als, written)
  {
    CorrectedIsPart(events, als);
    SplitParts(Corrected(events, als), events, als, PW.Direct(q, Corrected(events, als), available, writeOk));
  }

  lemma WakeUpsAppend(wake: set<int32>, events: seq<Event>, event: Event)
    ensures WakeUps(wake, events + [event]) == WakeUps(wake, events) + (if event.sensorHandle in wake then 1 else 0)
  {
    WakeUpsConcat(wake, events, [event]);
    assert [event][1..] == [];
  }

  lemma OneMoreWakeUp(wake: set<int32>, events: seq<Event>, n: nat)
    requires n < |events|
    ensures WakeUps(wake, events[..n + 1]) == WakeUps(wake, events[..n]) + (if events[n].sensorHandle in wake then 1 else 0)
  {
    assert events[..n + 1] == events[..n] + [events[n]];
    WakeUpsAppend(wake, events[..n], events[n]);
  }

  /** The chunks concatenated. */
  function Concat(chunks: seq<seq<Event>>): seq<Event> {
    if chunks == [] then [] else Concat(chunks[..|chunks| - 1]) + chunks[|chunks| - 1]
  }

  lemma ConcatAppend(chunks: seq<seq<Event>>, chunk: seq<Event>)
    ensures Concat(chunks + [chunk]) == Concat(chunks) + chunk
  {
    assert (chunks + [chunk])[..|chunks|] == chunks;
  }

  /** `chunks` were taken from the front of queued lists that held `all` and needed `total` iterations, and
      `pending` is left. */
  ghost predicate Taken(chunks: seq<seq<Event>>, pending: seq<PW.Batch>, quantum: nat, all: seq<Event>, total: nat)
    requires quantum > 0
  {
    && |chunks| + PW.Iterations(pending, quantum) == total
    && Concat(chunks) + PW.Flatten(pending) == all
    && forall k | 0 <= k < |chunks| :: 0 < |chunks[k]| <= quantum
  }

  lemma Reassociate(a: seq<Event>, b: seq<Event>, c: seq<Event>)
    ensures a + (b + c) == (a + b) + c
  {
  }

  lemma TakeOneMore(chunks: seq<seq<Event>>, chunk: seq<Event>, before: seq<PW.Batch>, after: seq<PW.Batch>,
                    quantum: nat, all: seq<Event>, total: nat)
    requires quantum > 0 && Taken(chunks, before, quantum, all, total) && 0 < |chunk| <= quantum
    requires PW.Iterations(after, quantum) + 1 == PW.Iterations(before, quantum)
    requires chunk + PW.Flatten(after) == PW.Flatten(before)
    ensures Taken(chunks + [chunk], after, quantum, all, total)
  {
    ConcatAppend(chunks, chunk);
    Reassociate(Concat(chunks), chunk, PW.Flatten(after));
    var more := chunks + [chunk];
    forall k | 0 <= k < |more|
      ensures 0 < |more[k]| <= quantum
    {
      if k < |chunks| {
        assert more[k] == chunks[k];
      }
    }
  }

  class HalProxy {
    const maxPending: nat
    const timeout: nat
    const subHalCount: size_t
    /** Whether getSensorInfo inserts a default entry for a missing handle, as countNumWakeupEvents does. */
    const infoInserts: bool
    /** The mode each sub-HAL is in. */
    const subHalModes: array<OM.Mode>

    var pending: seq<PW.Batch>
    var size: int
    var most: int
    /** The writer thread's locals while it holds no mutex. */
    var writer: PW.Writer

    var running: bool
    var refCount: nat
    var timeoutStart: int
    var resetTime: int
    /** The calls made to the system's wakelock interface. */
    var wakeCalls: seq<WL.Call>

    /** The sub-HALs' lists the table was built from, and the events whose handles were looked up in it since. */
    ghost const lists: seq<seq<SensorInfo>>
    ghost var lookedUp: seq<Event>

    var sensors: map<int32, SensorInfo>
    /** How often AlsCorrection::init was called. */
    var alsInits: nat
    var directChannelSubHal: Option<size_t>
    var dynamicSensors: map<int32, SensorInfo>
    /** What was reported to the framework about dynamic sensors since the last initialisation. */
    var reports: seq<R.Report>

    var currentMode: OM.Mode

    ghost function Queue(): PW.Queue
      reads `pending, `size, `most, `writer
    {
      PW.Queue(pending, size, most, writer)
    }

    ghost function Lock(): WL.Lock
      reads `running, `refCount, `timeoutStart, `resetTime, `wakeCalls
    {
      WL.Lock(running, refCount, timeoutStart, resetTime, wakeCalls)
    }

    ghost function Table(): R.Table
      reads `sensors, `directChannelSubHal
    {
      R.Table(sensors, directChannelSubHal)
    }

    ghost function DynamicTable(): R.Dynamic
      reads `dynamicSensors, `reports
    {
      R.Dynamic(dynamicSensors, reports)
    }

    /** The sensor table is the one built at first, with the default entries that looking up left in it. */
    ghost predicate Tracked()
      reads `sensors, `lookedUp
    {
      && |lists| == subHalCount
      && sensors == WithDefaults(R.RegisterAll(R.Entries(lists)).sensors, lookedUp)
    }

    constructor (maxPending: nat, timeout: nat, infoInserts: bool, lists: seq<seq<SensorInfo>>, modes: array<OM.Mode>)
      requires |lists| < SIZE_T_LIMIT && modes.Length == |lists|
      ensures this.maxPending == maxPending && this.timeout == timeout
      ensures this.infoInserts == infoInserts && subHalCount == |lists| && subHalModes == modes
      ensures Queue() == PW.EMPTY && Lock() == WL.Lock(false, 0, 0, 0, [])
      ensures Table() == R.RegisterAll(R.Entries(lists)) && DynamicTable() == R.Dynamic(map[], [])
      ensures currentMode == OM.NORMAL && alsInits == R.LightInits(R.Entries(lists))
      ensures this.lists == lists && lookedUp == [] && Tracked()
    {
      this.maxPending, this.timeout, subHalCount, subHalModes := maxPending, timeout, |lists|, modes;
      this.infoInserts, this.lists, lookedUp, alsInits := infoInserts, lists, [], 0;
      pending, size, most, writer := [], 0, 0, PW.Idle;
      running, refCount, timeoutStart, resetTime, wakeCalls := false, 0, 0, 0, [];
      sensors, directChannelSubHal := map[], None;
      dynamicSensors, reports, currentMode := map[], [], OM.NORMAL;
      new;
      InitializeSensorList(lists);
      NothingReadYet(sensors);
    }

    // ---- The shared wakelock ----

    method IncrementRefCountAndMaybeAcquireWakelock(delta: nat, now: int) returns (counted: bool, start: int)
      modifies `refCount, `timeoutStart, `wakeCalls
      ensures Lock() == WL.Increment(old(Lock()), delta, now)
      ensures counted == running && (counted ==> start == now)
    {
      counted, start := false, 0;
      if !running {
        return;
      }
      if refCount == 0 {
        wakeCalls := wakeCalls + [WL.AcquireCall];
      }
      timeoutStart := now;
      refCount := refCount + delta;
      counted, start := true, timeoutStart;
    }

    method DecrementRefCountAndMaybeReleaseWakelock(delta: nat, timeoutStart: int)
      modifies `refCount, `wakeCalls
      ensures Lock() == WL.Decrement(old(Lock()), delta, timeoutStart)
    {
      if !running {
        return;
      }
      var start := if timeoutStart == WL.NO_START then resetTime else timeoutStart;
      if refCount == 0 || start < resetTime {
        return;
      }
      refCount := refCount - Min(refCount, delta);
      if refCount == 0 {
        wakeCalls := wakeCalls + [WL.ReleaseCall];
      }
    }

    method ResetSharedWakelock(now: int)
      modifies `refCount, `wakeCalls, `resetTime
      ensures Lock() == WL.ResetShared(old(Lock()), now)
    {
      DecrementRefCountAndMaybeReleaseWakelock(refCount, WL.NO_START);
      resetTime := now;
    }

    method SharedWakelockDidTimeout(now: int) returns (didTimeout: bool, timeLeft: int)
      ensures didTimeout <==> WL.DidTimeout(Lock(), now, timeout)
      ensures !didTimeout ==> timeLeft == timeout - (now - timeoutStart) >= 0
    {
      var duration := now - timeoutStart;
      didTimeout := duration > timeout;
      timeLeft := if didTimeout then 0 else timeout - duration;
    }

    /** One pass of the wakelock thread, up to where it starts to wait for an acknowledgement. */
    method HandleWakelocks(now: int, resetNow: int) returns (waits: bool, timeLeft: int)
      requires running && refCount > 0
      modifies `refCount, `wakeCalls, `resetTime
      ensures waits <==> !WL.DidTimeout(old(Lock()), now, timeout)
      ensures waits ==> timeLeft == timeout - (now - timeoutStart) >= 0 && Lock() == old(Lock())
      ensures !waits ==> Lock() == WL.ResetShared(old(Lock()), resetNow)
    {
      var didTimeout;
      didTimeout, timeLeft := SharedWakelockDidTimeout(now);
      if didTimeout {
        ResetSharedWakelock(resetNow);
      }
      waits := !didTimeout;
    }

    /** The wait ended: an acknowledgement that was read gives its number of references back. */
    method FinishWakelockWait(success: bool, numWakeLocksProcessed: nat)
      modifies `refCount, `wakeCalls
      ensures Lock() == if success then WL.Decrement(old(Lock()), numWakeLocksProcessed, WL.NO_START) else old(Lock())
    {
      if success {
        DecrementRefCountAndMaybeReleaseWakelock(numWakeLocksProcessed, WL.NO_START);
      }
    }

    // ---- Posting and the pending writes thread ----

    /** The loop that corrects the light events of a batch in place. */
    method CorrectEvents(eventsList: seq<Event>, als: seq<Event>) returns (events: seq<Event>)
      requires |als| == |eventsList|
      ensures events == Corrected(eventsList, als) && IsPartOf(events, eventsList, als, 0)
    {
      events := eventsList;
      for i := 0 to |events|
        invariant |events| == |eventsList|
        invariant forall k | 0 <= k < i :: events[k] == if eventsList[k].sensorType == TYPE_QTI_WISE_LIGHT then als[k] else eventsList[k]
        invariant forall k | i <= k < |events| :: events[k] == eventsList[k]
      {
        if events[i].sensorType == TYPE_QTI_WISE_LIGHT {
          events := events[i := als[i]];
        }
      }
    }

    method PostEventsToMessageQueue(eventsList: seq<Event>, numWakeupEvents: nat, locked: bool, als: seq<Event>,
                                    available: nat, writeOk: bool, now: int) returns (written: seq<Event>)
      requires |als| == |eventsList|
      modifies `pending, `size, `most, `refCount, `timeoutStart, `wakeCalls
      ensures PostedTo(old(Queue()), Queue(), maxPending, Corrected(eventsList, als), numWakeupEvents, available, writeOk, written)
      ensures IsPartOf(written, eventsList, als, 0)
      ensures TailIsPart(old(Queue()).pending, Queue().pending, eventsList, als, written)
      ensures sensors == old(sensors)
      ensures Lock() == if locked then WL.Increment(old(Lock()), numWakeupEvents, now) else old(Lock())
    {
      ghost var q := Queue();
      if locked {
        var _, _ := IncrementRefCountAndMaybeAcquireWakelock(numWakeupEvents, now);
      }
      assert Queue() == q;
      written := CorrectAndPost(eventsList, numWakeupEvents, als, available, writeOk);
    }

    method CorrectAndPost(eventsList: seq<Event>, numWakeupEvents: nat, als: seq<Event>, available: nat, writeOk: bool)
      returns (written: seq<Event>)
      requires |als| == |eventsList|
      modifies `pending, `size, `most
      ensures PostedTo(old(Queue()), Queue(), maxPending, Corrected(eventsList, als), numWakeupEvents, available, writeOk, written)
      ensures IsPartOf(written, eventsList, als, 0)
      ensures TailIsPart(old(Queue()).pending, Queue().pending, eventsList, als, written)
    {
      ghost var q := Queue();
      var events := CorrectEvents(eventsList, als);
      written := WriteOrQueue(events, numWakeupEvents, available, writeOk);
      PartsArePosted(q, Queue(), maxPending, eventsList, als, numWakeupEvents, available, writeOk, written);
    }

    /** With the batch corrected: as much as there is room for is written, unless events are pending; the rest is queued
        if it fits under the bound. */
    method WriteOrQueue(events: seq<Event>, numWakeupEvents: nat, available: nat, writeOk: bool) returns (written: seq<Event>)
      modifies `pending, `size, `most
      ensures PostedTo(old(Queue()), Queue(), maxPending, events, numWakeupEvents, available, writeOk, written)
    {
      var numToWrite := 0;
      if pending == [] {
        numToWrite := Min(|events|, available);
        if numToWrite > 0 && !writeOk {
          numToWrite := 0;
        }
      }
      written := events[..numToWrite];
      var numLeft := |events| - numToWrite;
      if numToWrite < |events| && size + numLeft <= maxPending {
        var eventsLeft := events[numToWrite..];
        pending := pending + [PW.Batch(eventsLeft, numWakeupEvents)];
        size := size + numLeft;
        most := Max(most, size);
      }
    }

    /** getSensorInfo, for the handle of an event. */
    method GetSensorInfo(event: Event) returns (info: SensorInfo)
      requires Tracked()
      modifies `sensors, `lookedUp
      ensures IsWakeUp(info) <==> event.sensorHandle in WakeHandles(old(sensors))
      ensures WakeHandles(sensors) == WakeHandles(old(sensors)) && Tracked()
      ensures lookedUp == old(lookedUp) + (if infoInserts then [event] else [])
    {
      info := if event.sensorHandle in sensors then sensors[event.sensorHandle] else DEFAULT_SENSOR;
      if infoInserts {
        DefaultsAreSilent(sensors, [event]);
        DefaultsCompose(R.RegisterAll(R.Entries(lists)).sensors, lookedUp, [event]);
        OneMoreRead(sensors, [event], 0);
        NothingReadYet(sensors);
        if event.sensorHandle !in sensors {
          sensors := sensors[event.sensorHandle := DEFAULT_SENSOR];
        }
        lookedUp := lookedUp + [event];
      }
    }

    /** Counting the wake-up events inserts a default entry for every handle that is not in the map. */
    method CountNumWakeupEvents(events: seq<Event>, n: nat) returns (count: nat)
      requires n <= |events| && Tracked()
      modifies `sensors, `lookedUp
      ensures count == WakeUps(WakeHandles(old(sensors)), events[..n])
      ensures sensors == WithDefaults(old(sensors), events[..n])
      ensures WakeHandles(sensors) == WakeHandles(old(sensors))
      ensures lookedUp == old(lookedUp) + events[..n] && Tracked()
    {
      count := 0;
      ghost var wake := WakeHandles(sensors);
      for i := 0 to n
        invariant count == WakeUps(wake, events[..i]) && lookedUp == old(lookedUp)
        invariant sensors == WithDefaults(old(sensors), events[..i])
        invariant WakeHandles(sensors) == wake
      {
        var handle := events[i].sensorHandle;
        OneMoreRead(old(sensors), events, i);
        OneMoreWakeUp(wake, events, i);
        if handle !in sensors {
          sensors := sensors[handle := DEFAULT_SENSOR];
        }
        DefaultsAreSilent(old(sensors), events[..i + 1]);
        if IsWakeUp(sensors[handle]) {
          count := count + 1;
        }
      }
      DefaultsCompose(R.RegisterAll(R.Entries(lists)).sensors, lookedUp, events[..n]);
      lookedUp := lookedUp + events[..n];
    }

    /** The writer thread with the mutex held: it looks at the front list, then unlocks. */
    method BeginPendingWrite(quantum: nat) returns (chunk: seq<Event>)
      requires running && pending != [] && writer.Idle?
      modifies `writer
      ensures Queue() == PW.BeginWrite(old(Queue()), quantum)
      ensures chunk == pending[0].events[..Min(|pending[0].events|, quantum)]
    {
      var events := pending[0].events;
      var numToWrite := Min(|events|, quantum);
      writer := PW.Writing(numToWrite, quantum, pending[0].wakeups);
      chunk := events[..numToWrite];
    }

    /** The events of the batch in flight that a failed write makes the proxy count. */
    ghost function CountedOnFailure(): seq<Event>
      requires pending != [] && writer.Writing?
      reads `pending, `writer
    {
      if writer.wakeups > 0 && |pending[0].events| > writer.quantum then pending[0].events[..writer.quantum] else []
    }

    /** The references of the first `n` events are given back: their wake-up events are counted anew. */
    method GiveBackCounted(events: seq<Event>, n: nat)
      requires n <= |events| && Tracked()
      modifies `sensors, `lookedUp, `refCount, `wakeCalls
      ensures Lock() == WL.Decrement(old(Lock()), WakeUps(WakeHandles(old(sensors)), events[..n]), WL.NO_START)
      ensures WakeHandles(sensors) == WakeHandles(old(sensors)) && Tracked()
      ensures lookedUp == old(lookedUp) + events[..n]
    {
      var count := CountNumWakeupEvents(events, n);
      DecrementRefCountAndMaybeReleaseWakelock(count, WL.NO_START);
    }

    /** The write failed for a batch with wake-up events. */
    method GiveBackDropped()
      requires pending != [] && writer.Writing? && writer.wakeups > 0 && Tracked()
      modifies `sensors, `lookedUp, `refCount, `wakeCalls
      ensures Lock() == WL.Decrement(old(Lock()), PW.GiveBack(WakeHandles(old(sensors)), Queue()), WL.NO_START)
      ensures WakeHandles(sensors) == WakeHandles(old(sensors)) && Tracked()
      ensures lookedUp == old(lookedUp) + CountedOnFailure()
    {
      ghost var due := PW.GiveBack(WakeHandles(sensors), Queue());
      if |pending[0].events| > writer.quantum {
        assert due == WakeUps(WakeHandles(sensors), pending[0].events[..writer.quantum]);
        GiveBackCounted(pending[0].events, writer.quantum);
      } else {
        assert due == writer.wakeups;
        DecrementRefCountAndMaybeReleaseWakelock(writer.wakeups, WL.NO_START);
      }
    }

    /** The blocking write returned, without the mutex: a failed write gives references back. */
    method FinishPendingWrite(ok: bool)
      requires pending != [] && writer.Writing? && Tracked()
      modifies `writer, `sensors, `lookedUp, `refCount, `wakeCalls
      ensures Queue() == PW.FinishWrite(old(Queue()))
      ensures Lock() == (if ok || old(writer).wakeups == 0 then old(Lock())
                         else WL.Decrement(old(Lock()), PW.GiveBack(WakeHandles(old(sensors)), old(Queue())), WL.NO_START))
      ensures WakeHandles(sensors) == WakeHandles(old(sensors)) && Tracked()
      ensures lookedUp == old(lookedUp) + (if ok then [] else old(CountedOnFailure()))
    {
      if !ok && writer.wakeups > 0 {
        GiveBackDropped();
      }
      writer := PW.Written(writer.count, writer.quantum);
    }

    /** The mutex is held again: the chunk leaves the queue. */
    method EndPendingWrite()
      requires pending != [] && writer.Written?
      modifies `pending, `size, `writer
      ensures Queue() == PW.EndWrite(old(Queue()))
    {
      size := size - writer.count;
      var front := pending[0];
      if |front.events| > writer.quantum {
        pending := [PW.Batch(front.events[writer.quantum..], front.wakeups)] + pending[1..];
      } else {
        pending := pending[1..];
      }
      writer := PW.Idle;
    }

    /** One iteration of the writer thread with no post in between. */
    method WritePendingChunk(quantum: nat, ok: bool) returns (chunk: seq<Event>)
      requires running && pending != [] && writer.Idle? && quantum > 0 && PW.Valid(Queue(), maxPending) && Tracked()
      modifies `pending, `size, `writer, `sensors, `lookedUp, `refCount, `wakeCalls
      ensures Queue() == PW.DrainOnce(old(Queue()), quantum)
      ensures PW.Valid(Queue(), maxPending) && writer.Idle? && size < old(size)
      ensures PW.Iterations(pending, quantum) + 1 == PW.Iterations(old(pending), quantum)
      ensures chunk + PW.Flatten(pending) == PW.Flatten(old(pending)) && 0 < |chunk| <= quantum
      ensures Tracked()
    {
      PW.DrainProgress(Queue(), maxPending, quantum);
      chunk := BeginPendingWrite(quantum);
      FinishPendingWrite(ok);
      EndPendingWrite();
    }

    /** The writer thread with no new posts: whatever the outcomes of the writes, it takes exactly the
        rounded-up number of chunks of each list, and the chunks are the queued events in order. */
    method HandlePendingWrites(quantum: nat, outcomes: nat -> bool) returns (chunks: seq<seq<Event>>)
      requires running && quantum > 0 && PW.Valid(Queue(), maxPending) && writer.Idle? && Tracked()
      modifies `pending, `size, `writer, `sensors, `lookedUp, `refCount, `wakeCalls
      ensures pending == [] && size == 0 && writer.Idle?
      ensures Concat(chunks) == PW.Flatten(old(pending)) && |chunks| == PW.Iterations(old(pending), quantum)
      ensures forall k | 0 <= k < |chunks| :: 0 < |chunks[k]| <= quantum
      ensures Tracked()
    {
      chunks := [];
      ghost var all, total := PW.Flatten(pending), PW.Iterations(pending, quantum);
      assert Taken(chunks, pending, quantum, all, total);
      while pending != []
        invariant running && PW.Valid(Queue(), maxPending) && writer.Idle?
        invariant Taken(chunks, pending, quantum, all, total)
        invariant Tracked()
        decreases size
      {
        ghost var before := pending;
        var chunk := WritePendingChunk(quantum, outcomes(|chunks|));
        TakeOneMore(chunks, chunk, before, pending, quantum, all, total);
        chunks := chunks + [chunk];
      }
    }

    // ---- Starting and stopping ----

    method StopThreads()
      modifies `running
      ensures !running
    {
      running := false;
    }

    /** The result of the sub-HALs' own initialisations: the last refusal counts. */
    method InitializeSubHals(before: OM.Result, answers: seq<OM.Result>) returns (result: OM.Result)
      ensures forall i | 0 <= i < |answers| && answers[i] != OM.OK && (forall j | i < j < |answers| :: answers[j] == OM.OK) ::
                result == answers[i]
      ensures (forall i | 0 <= i < |answers| :: answers[i] == OM.OK) ==> result == before
      ensures result == OM.OK <==> before == OM.OK && forall i | 0 <= i < |answers| :: answers[i] == OM.OK
    {
      result := before;
      for k := 0 to |answers|
        invariant forall i | 0 <= i < k && answers[i] != OM.OK && (forall j | i < j < k :: answers[j] == OM.OK) ::
                    result == answers[i]
        invariant (forall i | 0 <= i < k :: answers[i] == OM.OK) ==> result == before
        invariant result == OM.OK <==> before == OM.OK && forall i | 0 <= i < k :: answers[i] == OM.OK
      {
        if answers[k] != OM.OK {
          result := answers[k];
        }
      }
    }

    /** Sensors are disabled by the keys of both tables; then the pending events and the dynamic sensors are
        forgotten. */
    method DisableAndClear() returns (disabled: set<(size_t, int32)>)
      requires Tracked()
      modifies `pending, `size, `dynamicSensors, `reports
      ensures disabled == R.Disabled(lists, lookedUp, old(dynamicSensors).Keys)
      ensures pending == [] && size == 0 && DynamicTable() == R.NO_DYNAMIC
    {
      disabled := DisableAllSensors();
      pending, size := [], 0;
      dynamicSensors, reports := map[], [];
    }

    /** Both threads were joined by the stop. `disabled` are the calls that disable sensors; `setUp` tells whether
        both event flags, both queues and the callback are there, and `answers` what the sub-HALs' initialisations
        return. */
    method InitializeCommon(now: int, setUp: bool, answers: seq<OM.Result>)
      returns (disabled: set<(size_t, int32)>, result: OM.Result)
      requires writer.Idle? && Tracked()
      modifies `running, `refCount, `wakeCalls, `resetTime, `pending, `size, `dynamicSensors, `reports, `currentMode
      ensures running && resetTime == now
      ensures refCount == old(refCount) && timeoutStart == old(timeoutStart) && wakeCalls == old(wakeCalls)
      ensures pending == [] && size == 0 && most == old(most) && writer == old(writer)
      ensures disabled == R.Disabled(lists, lookedUp, old(dynamicSensors).Keys)
      ensures DynamicTable() == R.NO_DYNAMIC && currentMode == OM.NORMAL
      ensures result == OM.OK <==> setUp && forall i | 0 <= i < |answers| :: answers[i] == OM.OK
      ensures forall i | 0 <= i < |answers| && answers[i] != OM.OK && (forall j | i < j < |answers| :: answers[j] == OM.OK) ::
                result == answers[i]
    {
      StopThreads();
      ResetSharedWakelock(now);
      disabled := DisableAndClear();
      running := true;
      result := InitializeSubHals(if setUp then OM.OK else OM.BAD_VALUE, answers);
      currentMode := OM.NORMAL;
    }

    // ---- The sensor tables ----

    method SetDirectChannelFlags(info: SensorInfo, subHal: size_t) returns (flagged: SensorInfo)
      modifies `directChannelSubHal
      ensures flagged == R.DirectFlagsSet(old(directChannelSubHal), R.Entry(subHal, info))
      ensures directChannelSubHal == R.NextOwner(old(directChannelSubHal), R.Entry(subHal, info))
    {
      flagged := info;
      if directChannelSubHal.None? && R.SupportsDirect(info) {
        directChannelSubHal := Some(subHal);
      } else if directChannelSubHal.Some? && subHal != directChannelSubHal.value {
        flagged := R.WithoutDirect(info);
      }
    }

    method RegisterSensor(info: SensorInfo, subHalIndex: size_t)
      modifies `sensors, `directChannelSubHal, `alsInits
      ensures Table() == R.Register(old(Table()), R.Entry(subHalIndex, info))
      ensures alsInits == old(alsInits) + (if R.InitsLight(R.Entry(subHalIndex, info)) then 1 else 0)
    {
      var sensor := info;
      if SubHalIndexIsClear(sensor.sensorHandle) {
        sensor := sensor.(sensorHandle := SetSubHalIndex(sensor.sensorHandle, subHalIndex));
        sensor := SetDirectChannelFlags(sensor, subHalIndex);
        if sensor.sensorType == TYPE_QTI_WISE_LIGHT {
          sensor := sensor.(sensorType := TYPE_LIGHT);
          alsInits := alsInits + 1;
        }
        sensors := sensors[sensor.sensorHandle := sensor];
      }
    }

    method InitializeSensorList(lists: seq<seq<SensorInfo>>)
      requires |lists| < SIZE_T_LIMIT && sensors == map[] && directChannelSubHal.None? && alsInits == 0
      modifies `sensors, `directChannelSubHal, `alsInits
      ensures Table() == R.RegisterAll(R.Entries(lists)) && alsInits == R.LightInits(R.Entries(lists))
    {
      for subHalIndex := 0 to |lists|
        invariant Table() == R.RegisterAll(R.Entries(lists[..subHalIndex]))
        invariant alsInits == R.LightInits(R.Entries(lists[..subHalIndex]))
      {
        var list := lists[subHalIndex];
        ghost var earlier, tagged := R.Entries(lists[..subHalIndex]), R.Tagged(list, subHalIndex);
        assert earlier + tagged[..0] == earlier;
        for i := 0 to |list|
          invariant Table() == R.RegisterAll(earlier + tagged[..i])
          invariant alsInits == R.LightInits(earlier + tagged[..i])
        {
          R.RegisterNext(earlier, tagged, i);
          RegisterSensor(list[i], subHalIndex);
        }
        assert lists[..subHalIndex + 1][..subHalIndex] == lists[..subHalIndex];
        assert tagged[..|tagged|] == tagged;
      }
      assert lists[..|lists|] == lists;
    }

    method Activate(handle: int32) returns (call: Option<(size_t, int32)>)
      ensures call == R.Route(handle, subHalCount)
    {
      if !IsSubHalIndexValid(handle, subHalCount) {
        return None;
      }
      return Some((ExtractSubHalIndex(handle), ClearSubHalIndex(handle)));
    }

    method DisableKeys(keys: set<int32>) returns (calls: set<(size_t, int32)>)
      ensures calls == R.Routed(keys, subHalCount)
    {
      calls := {};
      var rest := keys;
      while rest != {}
        invariant rest <= keys && calls == R.Routed(keys - rest, subHalCount)
        decreases |rest|
      {
        var key :| key in rest;
        var call := Activate(key);
        if call.Some? {
          calls := calls + {call.value};
        }
        assert keys - (rest - {key}) == (keys - rest) + {key};
        rest := rest - {key};
      }
      assert keys - {} == keys;
    }

    method DisableAllSensors() returns (calls: set<(size_t, int32)>)
      ensures calls == R.Routed(sensors.Keys + dynamicSensors.Keys, subHalCount)
    {
      var fixed := DisableKeys(sensors.Keys);
      var dynamic := DisableKeys(dynamicSensors.Keys);
      calls := fixed + dynamic;
    }

    method OnDynamicSensorsConnected(added: seq<SensorInfo>, subHalIndex: size_t) returns (reported: seq<SensorInfo>)
      modifies `dynamicSensors, `reports
      ensures DynamicTable() == R.Connect(old(DynamicTable()), added, subHalIndex)
      ensures |reports| == |old(reports)| + |reported|
      ensures forall k | 0 <= k < |reported| :: reports[|old(reports)| + k] == R.Added(reported[k].sensorHandle)
      ensures reported == R.AcceptedSensors(added, subHalIndex)
    {
      reported := [];
      for i := 0 to |added|
        invariant DynamicTable() == R.Connect(old(DynamicTable()), added[..i], subHalIndex)
        invariant |reports| == |old(reports)| + |reported|
        invariant forall k | 0 <= k < |reported| :: reports[|old(reports)| + k] == R.Added(reported[k].sensorHandle)
        invariant reported == R.AcceptedSensors(added[..i], subHalIndex)
      {
        var sensor := added[i];
        assert added[..i + 1][..i] == added[..i];
        if SubHalIndexIsClear(sensor.sensorHandle) {
          sensor := sensor.(sensorHandle := SetSubHalIndex(sensor.sensorHandle, subHalIndex));
          dynamicSensors := dynamicSensors[sensor.sensorHandle := sensor];
          reported := reported + [sensor];
          reports := reports + [R.Added(sensor.sensorHandle)];
        }
      }
      assert added[..|added|] == added;
    }

    method OnDynamicSensorsDisconnected(removed: seq<int32>, subHalIndex: size_t) returns (reported: seq<int32>)
      modifies `dynamicSensors, `reports
      ensures DynamicTable() == R.Disconnect(old(DynamicTable()), removed, subHalIndex)
      ensures |reports| == |old(reports)| + |reported|
      ensures forall k | 0 <= k < |reported| :: reports[|old(reports)| + k] == R.Removed(reported[k])
    {
      reported := [];
      for i := 0 to |removed|
        invariant DynamicTable() == R.Disconnect(old(DynamicTable()), removed[..i], subHalIndex)
        invariant |reports| == |old(reports)| + |reported|
        invariant forall k | 0 <= k < |reported| :: reports[|old(reports)| + k] == R.Removed(reported[k])
      {
        assert removed[..i + 1][..i] == removed[..i];
        if SubHalIndexIsClear(removed[i]) {
          var handle := SetSubHalIndex(removed[i], subHalIndex);
          if handle in dynamicSensors {
            dynamicSensors := dynamicSensors - {handle};
            reported := reported + [handle];
            reports := reports + [R.Removed(handle)];
          }
        }
      }
      assert removed[..|removed|] == removed;
    }

    // ---- The operation mode ----

    /** `answers` is what each sub-HAL replies to the new mode, `resets` whether it takes the old one back. */
    method SetOperationMode(mode: OM.Mode, answers: seq<OM.Result>, resets: seq<bool>) returns (result: OM.Result)
      requires |answers| == |resets| == subHalModes.Length
      modifies subHalModes, `currentMode
      ensures var r := OM.Request(mode, answers, resets);
              && subHalModes[..] == OM.ModesAfter(old(subHalModes[..]), old(currentMode), r)
              && currentMode == OM.CurrentAfter(old(currentMode), r)
              && result == (if OM.FirstRefusal(answers) == |answers| then OM.OK else answers[OM.FirstRefusal(answers)])
    {
      result := OM.OK;
      var subHalIndex := 0;
      ghost var modes := subHalModes[..];
      ghost var k := OM.FirstRefusal(answers);
      while subHalIndex < subHalModes.Length
        invariant 0 <= subHalIndex <= k && result == OM.OK && currentMode == old(currentMode)
        invariant forall i | 0 <= i < subHalModes.Length :: subHalModes[i] == if i < subHalIndex then mode else modes[i]
      {
        result := answers[subHalIndex];
        if result != OM.OK {
          break;
        }
        subHalModes[subHalIndex] := mode;
        subHalIndex := subHalIndex + 1;
      }
      assert subHalIndex == k;
      if result != OM.OK {
        for i := 0 to subHalIndex
          invariant currentMode == old(currentMode)
          invariant forall j | 0 <= j < subHalModes.Length :: subHalModes[j] ==
                      if j >= k then modes[j] else if j < i && resets[j] then currentMode else mode
        {
          if resets[i] {
            subHalModes[i] := currentMode;
          }
        }
      } else {
        currentMode := mode;
      }
      assert |subHalModes[..]| == |modes|;
    }
  }
}
