/** The pop-up camera's motor: availability callbacks debounced through a delayed message queue. */
module CameraMotor {
  import opened Basics

  /** MSG_CAMERA_CLOSED and MSG_CAMERA_OPEN; each is sent by the callback of the same meaning. */
  datatype What = Closed | Open

  datatype Direction = Down | Up

  /** A message of the handler's queue and the uptime at which it is due. */
  datatype Message = Message(what: What, due: int)

  /** The three clock readings of one callback: the event time it stores and the one it compares, both of
      elapsedRealtime, and the uptime from which the handler counts the delay. */
  datatype Clocks = Clocks(stored: int, checked: int, uptime: int)

  const DELAY: int := 100
  const FRONT_CAMERA_ID: string := "1"

  /** `handled` are the messages executed so far, in order; `direction` is what the motor was last driven to. */
  datatype Service = Service(closedEvent: int, openEvent: int, queue: seq<Message>, handled: seq<Message>,
                             direction: Option<Direction>)

  const CREATED: Service := Service(0, 0, [], [], None)

  function DirectionOf(what: What): Direction {
    if what.Closed? then Down else Up
  }

  function Opposite(what: What): What {
    if what.Closed? then Open else Closed
  }

  function EventTime(s: Service, what: What): int {
    if what.Closed? then s.closedEvent else s.openEvent
  }

  /** removeMessages: all messages of a kind. */
  function Remove(queue: seq<Message>, what: What): (r: seq<Message>)
    ensures forall m | m in r :: m in queue && m.what != what
    ensures forall m | m in queue && m.what != what :: m in r
  {
    if queue == [] then []
    else (if queue[0].what == what then [] else [queue[0]]) + Remove(queue[1..], what)
  }

  lemma Reassociate(a: seq<Message>, b: seq<Message>, c: seq<Message>)
    ensures a + (b + c) == (a + b) + c
  {
  }

  lemma RemoveFromOne(m: Message, what: What)
    ensures Remove([m], what) == if m.what == what then [] else [m]
  {
    assert [m][1..] == [];
  }

  /** Removing keeps the order of what remains: it distributes over concatenation, so with RemoveFromOne it is the
      filter that drops exactly the messages of a kind. */
  lemma {:induction false} RemoveIsFilter(a: seq<Message>, b: seq<Message>, what: What)
    ensures Remove(a + b, what) == Remove(a, what) + Remove(b, what)
  {
    if a == [] {
      assert a + b == b;
    } else {
      assert (a + b)[1..] == a[1..] + b;
      RemoveIsFilter(a[1..], b, what);
      var head := if a[0].what == what then [] else [a[0]];
      Reassociate(head, Remove(a[1..], what), Remove(b, what));
    }
  }

  /** The handler keeps its queue by due time, first come first served among equals. */
  function Insert(queue: seq<Message>, m: Message): (r: seq<Message>)
    ensures |r| == |queue| + 1
  {
    if queue == [] || queue[0].due > m.due then [m] + queue
    else [queue[0]] + Insert(queue[1..], m)
  }

  predicate Has(queue: seq<Message>, what: What) {
    exists i | 0 <= i < |queue| :: queue[i].what == what
  }

  /** The callback for `what`, for the front camera. */
  function OnEvent(s: Service, what: What, c: Clocks): Service {
    var stored := if what.Closed? then s.(closedEvent := c.stored) else s.(openEvent := c.stored);
    var other := Opposite(what);
    var kept := if c.checked - EventTime(s, other) < DELAY && Has(s.queue, other) then Remove(s.queue, other) else s.queue;
    stored.(queue := Insert(kept, Message(what, c.uptime + DELAY)))
  }

  function HandleNext(s: Service): Service
    requires s.queue != []
  {
    s.(queue := s.queue[1..], handled := s.handled + [s.queue[0]], direction := Some(DirectionOf(s.queue[0].what)))
  }

  // ---- Runs ----

  datatype Step =
    | Event(what: What, cameraId: string, clocks: Clocks)
    | Execute(now: int)

  /** `elapsed` and `uptime` are the latest readings; the rest are histories of the front camera: its latest event,
      and the readings that the latest callback of each kind took. */
  datatype World = World(service: Service, elapsed: int, uptime: int, latest: Option<What>,
                         closedAt: Option<Clocks>, openAt: Option<Clocks>)

  function LastClocks(w: World, what: What): Option<Clocks> {
    if what.Closed? then w.closedAt else w.openAt
  }

  /** Neither clock runs backwards; a message is executed no earlier than it is due. How the two clocks relate is
      left open: elapsedRealtime goes on while the device sleeps, uptime does not. */
  predicate Enabled(w: World, step: Step) {
    match step
    case Event(_, _, c) => w.elapsed <= c.stored <= c.checked && w.uptime <= c.uptime
    case Execute(now) => w.service.queue != [] && w.uptime <= now && w.service.queue[0].due <= now
  }

  predicate OfFrontCamera(step: Step) {
    step.Event? && step.cameraId == FRONT_CAMERA_ID
  }

  function Apply(w: World, step: Step): World
    requires step.Execute? ==> w.service.queue != []
  {
    match step
    case Event(what, id, c) =>
      if id == FRONT_CAMERA_ID then
        World(OnEvent(w.service, what, c), c.checked, c.uptime, Some(what),
              if what.Closed? then Some(c) else w.closedAt, if what.Open? then Some(c) else w.openAt)
      else w.(elapsed := c.checked, uptime := c.uptime)
    case Execute(now) => w.(service := HandleNext(w.service), uptime := now)
  }

  ghost predicate Starts(w: World) {
    w == World(CREATED, w.elapsed, w.uptime, None, None, None) && w.elapsed >= 0
  }

  ghost predicate IsRun(states: seq<World>, steps: seq<Step>) {
    && |states| == |steps| + 1 && Starts(states[0])
    && forall i | 0 <= i < |steps| :: Enabled(states[i], steps[i]) && states[i + 1] == Apply(states[i], steps[i])
  }

  /** The messages executed so far, followed by those that will be if no further callback comes. */
  function Commands(s: Service): seq<Message> {
    s.handled + s.queue
  }

  function Distance(a: int, b: int): nat {
    if a < b then b - a else a - b
  }

  /** Messages of opposite direction are due at least `gap` apart. */
  ghost predicate Spaced(ms: seq<Message>, gap: int) {
    forall i, j | 0 <= i < |ms| && 0 <= j < |ms| && ms[i].what != ms[j].what :: Distance(ms[i].due, ms[j].due) >= gap
  }

  /** A queued message was sent by a callback no later than the latest one of its kind. */
  predicate Dated(w: World, m: Message) {
    match LastClocks(w, m.what)
    case None => false
    case Some(last) => EventTime(w.service, m.what) == last.stored && m.due <= last.uptime + DELAY
  }

  /** A message for a camera that closed drives the motor down, one for a camera that opened drives it up. */
  predicate DrivenBy(m: Message, direction: Option<Direction>) {
    (m.what == Closed ==> direction == Some(Down)) && (m.what == Open ==> direction == Some(Up))
  }

  ghost predicate Inv(w: World) {
    && (w.closedAt.Some? ==> w.closedAt.value.uptime <= w.uptime)
    && (w.openAt.Some? ==> w.openAt.value.uptime <= w.uptime)
    && (forall i | 0 <= i < |w.service.handled| :: w.service.handled[i].due <= w.uptime)
    && (forall i | 0 <= i < |w.service.queue| :: Dated(w, w.service.queue[i]))
    && (w.service.handled != [] ==> DrivenBy(w.service.handled[|w.service.handled| - 1], w.service.direction))
    && (match w.latest
        case None => Commands(w.service) == []
        case Some(what) => Commands(w.service) != [] && Commands(w.service)[|Commands(w.service)| - 1].what == what)
  }

  lemma {:induction false} InsertAtEnd(queue: seq<Message>, m: Message)
    requires forall i | 0 <= i < |queue| :: queue[i].due <= m.due
    ensures Insert(queue, m) == queue + [m]
  {
    if queue != [] {
      InsertAtEnd(queue[1..], m);
    }
  }

  lemma RemoveWithoutMatch(queue: seq<Message>, what: What)
    requires !Has(queue, what)
    ensures Remove(queue, what) == queue
  {
    if queue != [] {
      assert queue[0].what != what;
      assert !Has(queue[1..], what);
      RemoveWithoutMatch(queue[1..], what);
    }
  }

  /** The callback for `what` finds the opposite event recent enough to cancel its message. */
  predicate Cancels(s: Service, what: What, c: Clocks) {
    c.checked - EventTime(s, Opposite(what)) < DELAY
  }

  /** What remains in the queue when the callback for `what` arrives. */
  function Kept(s: Service, what: What, c: Clocks): seq<Message> {
    if Cancels(s, what, c) then Remove(s.queue, Opposite(what)) else s.queue
  }

  /** Removing when there is nothing to remove changes nothing, so the test for messages does not matter. */
  lemma OnEventInserts(s: Service, what: What, c: Clocks)
    ensures OnEvent(s, what, c).queue == Insert(Kept(s, what, c), Message(what, c.uptime + DELAY))
  {
    if !Has(s.queue, Opposite(what)) {
      RemoveWithoutMatch(s.queue, Opposite(what));
    }
  }

  lemma QueuedIsDated(w: World, m: Message)
    requires Inv(w) && m in w.service.queue
    ensures Dated(w, m) && m.due <= w.uptime + DELAY
  {
    var i :| 0 <= i < |w.service.queue| && w.service.queue[i] == m;
    assert Dated(w, w.service.queue[i]);
  }

  lemma CommandIsDue(w: World, m: Message)
    requires Inv(w) && m in Commands(w.service)
    ensures m.due <= w.uptime + DELAY && (m !in w.service.queue ==> m.due <= w.uptime)
  {
    if m in w.service.queue {
      QueuedIsDated(w, m);
    } else {
      assert m in w.service.handled;
    }
  }

  lemma OnEventAppends(w: World, what: What, c: Clocks)
    requires Inv(w) && w.uptime <= c.uptime
    ensures OnEvent(w.service, what, c).queue == Kept(w.service, what, c) + [Message(what, c.uptime + DELAY)]
    ensures OnEvent(w.service, what, c).handled == w.service.handled
  {
    OnEventInserts(w.service, what, c);
    var kept := Kept(w.service, what, c);
    forall i | 0 <= i < |kept|
      ensures kept[i].due <= c.uptime + DELAY
    {
      assert kept[i] in kept;
      QueuedIsDated(w, kept[i]);
    }
    InsertAtEnd(kept, Message(what, c.uptime + DELAY));
  }

  lemma {:induction false} RemoveTwice(queue: seq<Message>, what: What)
    ensures Remove(Remove(queue, what), what) == Remove(queue, what) && Remove(Remove(queue, what), Opposite(what)) == []
  {
    if queue != [] {
      RemoveTwice(queue[1..], what);
      var head := if queue[0].what == what then [] else [queue[0]];
      RemoveIsFilter(head, Remove(queue[1..], what), what);
      RemoveIsFilter(head, Remove(queue[1..], what), Opposite(what));
      RemoveFromOne(queue[0], what);
      RemoveFromOne(queue[0], Opposite(what));
    }
  }

  /** What a callback of the front camera does: its own message comes last, 100 ms from now, and behind all earlier ones
      of its kind; those of the other kind are all cancelled if the last opposite event is less than 100 ms ago, and
      otherwise all kept, in order; the event time is stored, and nothing is executed. */
  lemma EventChangesQueue(w: World, what: What, c: Clocks)
    requires Inv(w) && w.uptime <= c.uptime
    ensures var s, s' := w.service, OnEvent(w.service, what, c);
            var last := if what == Closed then s.openEvent else s.closedEvent;
            && s'.queue != [] && s'.queue[|s'.queue| - 1] == Message(what, c.uptime + 100)
            && Remove(s'.queue, Opposite(what)) == Remove(s.queue, Opposite(what)) + [Message(what, c.uptime + 100)]
            && Remove(s'.queue, what) == (if c.checked - last < 100 then [] else Remove(s.queue, what))
            && (if what == Closed then s'.closedEvent == c.stored && s'.openEvent == s.openEvent
                else s'.openEvent == c.stored && s'.closedEvent == s.closedEvent)
            && s'.handled == s.handled && s'.direction == s.direction
  {
    OnEventAppends(w, what, c);
    var kept, own := Kept(w.service, what, c), Message(what, c.uptime + DELAY);
    RemoveIsFilter(kept, [own], Opposite(what));
    RemoveIsFilter(kept, [own], what);
    RemoveFromOne(own, Opposite(what));
    RemoveFromOne(own, what);
    RemoveTwice(w.service.queue, Opposite(what));
  }

  lemma QueueStaysDated(w: World, what: What, c: Clocks, m: Message)
    requires Inv(w) && w.uptime <= c.uptime && m in OnEvent(w.service, what, c).queue
    ensures Dated(Apply(w, Event(what, FRONT_CAMERA_ID, c)), m)
  {
    OnEventAppends(w, what, c);
    if m in Kept(w.service, what, c) {
      QueuedIsDated(w, m);
    }
  }

  lemma LastCommandIsOwn(w: World, what: What, c: Clocks)
    requires Inv(w) && w.uptime <= c.uptime
    ensures var s := OnEvent(w.service, what, c);
            && Commands(s) != [] && Commands(s)[|Commands(s)| - 1].what == what
            && s.handled == w.service.handled && s.direction == w.service.direction
  {
    OnEventAppends(w, what, c);
  }

  lemma EventKeepsInv(w: World, step: Step)
    requires Inv(w) && Enabled(w, step) && OfFrontCamera(step)
    ensures Inv(Apply(w, step))
  {
    var w' := Apply(w, step);
    LastCommandIsOwn(w, step.what, step.clocks);
    forall i | 0 <= i < |w'.service.queue|
      ensures Dated(w', w'.service.queue[i])
    {
      QueueStaysDated(w, step.what, step.clocks, w'.service.queue[i]);
    }
  }

  lemma ExecuteKeepsInv(w: World, step: Step)
    requires Inv(w) && Enabled(w, step) && step.Execute?
    ensures Inv(Apply(w, step)) && Commands(Apply(w, step).service) == Commands(w.service)
  {
    var s := HandleNext(w.service);
    assert w.service.queue == [w.service.queue[0]] + s.queue;
    assert Commands(s) == Commands(w.service);
    forall i | 0 <= i < |s.queue|
      ensures Dated(Apply(w, step), s.queue[i])
    {
      assert Dated(w, w.service.queue[i + 1]);
    }
  }

  lemma StepKeepsInv(w: World, step: Step)
    requires Inv(w) && Enabled(w, step)
    ensures Inv(Apply(w, step))
  {
    if OfFrontCamera(step) {
      EventKeepsInv(w, step);
    } else if step.Execute? {
      ExecuteKeepsInv(w, step);
    } else {
      assert forall i | 0 <= i < |w.service.queue| :: Dated(w, w.service.queue[i]) ==> Dated(Apply(w, step), w.service.queue[i]);
    }
  }

  lemma {:induction false} RunsKeepInv(states: seq<World>, steps: seq<Step>, i: nat)
    requires IsRun(states, steps) && i < |states|
    ensures Inv(states[i])
  {
    if i > 0 {
      RunsKeepInv(states, steps, i - 1);
      StepKeepsInv(states[i - 1], steps[i - 1]);
    }
  }

  // ---- The gap between opposite commands ----

  /** The callback either cancels the opposite message or finds none due within `gap` of its own. */
  predicate KeepsGap(s: Service, what: What, c: Clocks, gap: int) {
    Cancels(s, what, c)
    || forall i | 0 <= i < |s.queue| && s.queue[i].what == Opposite(what) :: s.queue[i].due + gap <= c.uptime + DELAY
  }

  lemma MembersStaySpaced(ms: seq<Message>, some: seq<Message>, gap: int)
    requires Spaced(ms, gap) && forall m | m in some :: m in ms
    ensures Spaced(some, gap)
  {
    forall i, j | 0 <= i < |some| && 0 <= j < |some| && some[i].what != some[j].what
      ensures Distance(some[i].due, some[j].due) >= gap
    {
      assert some[i] in some && some[j] in some;
      var a :| 0 <= a < |ms| && ms[a] == some[i];
      var b :| 0 <= b < |ms| && ms[b] == some[j];
    }
  }

  lemma KeptCommands(w: World, what: What, c: Clocks)
    requires Inv(w) && w.uptime <= c.uptime
    ensures Commands(OnEvent(w.service, what, c)) == (w.service.handled + Kept(w.service, what, c)) + [Message(what, c.uptime + DELAY)]
    ensures forall m | m in w.service.handled + Kept(w.service, what, c) :: m in Commands(w.service)
  {
    OnEventAppends(w, what, c);
  }

  lemma LastIsFarEnough(before: seq<Message>, m: Message, gap: int)
    requires Spaced(before, gap) && forall b | b in before && b.what != m.what :: b.due + gap <= m.due
    ensures Spaced(before + [m], gap)
  {
    var all := before + [m];
    forall i, j | 0 <= i < |all| && 0 <= j < |all| && all[i].what != all[j].what
      ensures Distance(all[i].due, all[j].due) >= gap
    {
      assert i < |before| ==> all[i] in before;
      assert j < |before| ==> all[j] in before;
    }
  }

  lemma GapIsKept(w: World, what: What, c: Clocks, gap: int)
    requires Inv(w) && Enabled(w, Event(what, FRONT_CAMERA_ID, c)) && gap <= DELAY
    requires Spaced(Commands(w.service), gap) && KeepsGap(w.service, what, c, gap)
    ensures Spaced(Commands(OnEvent(w.service, what, c)), gap)
  {
    KeptCommands(w, what, c);
    var before := w.service.handled + Kept(w.service, what, c);
    MembersStaySpaced(Commands(w.service), before, gap);
    forall b | b in before && b.what != what
      ensures b.due + gap <= c.uptime + DELAY
    {
      CommandIsDue(w, b);
    }
    LastIsFarEnough(before, Message(what, c.uptime + DELAY), gap);
  }

  lemma GapIsBroken(w: World, what: What, c: Clocks, gap: int)
    requires Inv(w) && Enabled(w, Event(what, FRONT_CAMERA_ID, c)) && !KeepsGap(w.service, what, c, gap)
    ensures !Spaced(Commands(OnEvent(w.service, what, c)), gap)
  {
    KeptCommands(w, what, c);
    var q := w.service.queue;
    var i :| 0 <= i < |q| && q[i].what == Opposite(what) && q[i].due + gap > c.uptime + DELAY;
    QueuedIsDated(w, q[i]);
    var all := Commands(OnEvent(w.service, what, c));
    assert all[|w.service.handled| + i] == q[i] && all[|all| - 1] == Message(what, c.uptime + DELAY);
  }

  /** Exactly when a callback keeps opposite commands apart. */
  lemma EventKeepsGapIff(w: World, what: What, c: Clocks, gap: int)
    requires Inv(w) && Enabled(w, Event(what, FRONT_CAMERA_ID, c)) && gap <= DELAY && Spaced(Commands(w.service), gap)
    ensures Spaced(Commands(OnEvent(w.service, what, c)), gap) <==> KeepsGap(w.service, what, c, gap)
  {
    if KeepsGap(w.service, what, c, gap) {
      GapIsKept(w, what, c, gap);
    } else {
      GapIsBroken(w, what, c, gap);
    }
  }

  predicate StepKeepsGap(w: World, step: Step, gap: int) {
    OfFrontCamera(step) ==> KeepsGap(w.service, step.what, step.clocks, gap)
  }

  lemma StepKeepsGapIff(w: World, step: Step, gap: int)
    requires Inv(w) && Enabled(w, step) && gap <= DELAY && Spaced(Commands(w.service), gap)
    ensures Spaced(Commands(Apply(w, step).service), gap) <==> StepKeepsGap(w, step, gap)
  {
    if OfFrontCamera(step) {
      EventKeepsGapIff(w, step.what, step.clocks, gap);
    } else if step.Execute? {
      ExecuteKeepsInv(w, step);
    }
  }

  lemma {:induction false} KeptGapsSpace(states: seq<World>, steps: seq<Step>, gap: int, n: nat)
    requires IsRun(states, steps) && n < |states| && gap <= DELAY
    requires forall k | 0 <= k < n :: StepKeepsGap(states[k], steps[k], gap)
    ensures Spaced(Commands(states[n].service), gap)
  {
    if n > 0 {
      KeptGapsSpace(states, steps, gap, n - 1);
      RunsKeepInv(states, steps, n - 1);
      StepKeepsGapIff(states[n - 1], steps[n - 1], gap);
    }
  }

  /** Over every run and for every gap up to the whole delay: opposite commands, executed or waiting, are that
      far apart in all states exactly when every callback of the front camera keeps the gap. */
  lemma GapOverRuns(states: seq<World>, steps: seq<Step>, gap: int)
    requires IsRun(states, steps) && gap <= DELAY
    ensures (forall n | 0 <= n < |states| :: Spaced(Commands(states[n].service), gap))
       <==> (forall n | 0 <= n < |steps| :: StepKeepsGap(states[n], steps[n], gap))
  {
    if forall n | 0 <= n < |steps| :: StepKeepsGap(states[n], steps[n], gap) {
      forall n | 0 <= n < |states|
        ensures Spaced(Commands(states[n].service), gap)
      {
        KeptGapsSpace(states, steps, gap, n);
      }
    }
    if forall n | 0 <= n < |states| :: Spaced(Commands(states[n].service), gap) {
      forall n | 0 <= n < |steps|
        ensures StepKeepsGap(states[n], steps[n], gap)
      {
        RunsKeepInv(states, steps, n);
        assert Spaced(Commands(states[n + 1].service), gap);
        StepKeepsGapIff(states[n], steps[n], gap);
      }
    }
  }

  /** So executed commands of opposite direction are due at least `gap` apart as long as callbacks keep it. */
  lemma OppositeCommandsAreSpaced(states: seq<World>, steps: seq<Step>, gap: int, n: nat)
    requires IsRun(states, steps) && n < |states| && gap <= DELAY
    requires forall k | 0 <= k < n :: StepKeepsGap(states[k], steps[k], gap)
    ensures Spaced(states[n].service.handled, gap)
  {
    KeptGapsSpace(states, steps, gap, n);
    MembersStaySpaced(Commands(states[n].service), states[n].service.handled, gap);
  }

  lemma ExtendRun(states: seq<World>, steps: seq<Step>, step: Step)
    requires IsRun(states, steps) && Enabled(states[|steps|], step)
    ensures IsRun(states + [Apply(states[|steps|], step)], steps + [step])
  {
  }

  /** `steps'` is `steps` followed by executions only. */
  ghost predicate OnlyExecutes(steps: seq<Step>, steps': seq<Step>) {
    steps <= steps' && forall k | |steps| <= k < |steps'| :: steps'[k].Execute?
  }

  /** With no further callback the handler executes all that is queued, in that order. */
  lemma {:induction false} HandlerDrains(states: seq<World>, steps: seq<Step>) returns (states': seq<World>, steps': seq<Step>)
    requires IsRun(states, steps)
    ensures IsRun(states', steps') && states <= states' && OnlyExecutes(steps, steps')
    ensures states'[|steps'|].service.queue == []
    ensures states'[|steps'|].service.handled == Commands(states[|steps|].service)
    decreases |states[|steps|].service.queue|
  {
    var w := states[|steps|];
    if w.service.queue == [] {
      states', steps' := states, steps;
    } else {
      var step := Execute(Max(w.uptime, w.service.queue[0].due));
      ExtendRun(states, steps, step);
      RunsKeepInv(states, steps, |steps|);
      ExecuteKeepsInv(w, step);
      states', steps' := HandlerDrains(states + [Apply(w, step)], steps + [step]);
    }
  }

  /** And a callback that does not keep the gap does bunch commands: let the handler run on, and two opposite ones
      less than `gap` apart are executed. */
  lemma BrokenGapIsExecuted(states: seq<World>, steps: seq<Step>, gap: int, step: Step)
    requires IsRun(states, steps) && Enabled(states[|steps|], step)
    requires !StepKeepsGap(states[|steps|], step, gap)
    ensures exists states': seq<World>, steps': seq<Step> ::
              && IsRun(states', steps') && OnlyExecutes(steps + [step], steps')
              && !Spaced(states'[|steps'|].service.handled, gap)
  {
    RunsKeepInv(states, steps, |steps|);
    ExtendRun(states, steps, step);
    GapIsBroken(states[|steps|], step.what, step.clocks, gap);
    var states', steps' := HandlerDrains(states + [Apply(states[|steps|], step)], steps + [step]);
    assert !Spaced(states'[|steps'|].service.handled, gap);
  }

  // ---- What the clocks have to do with it ----

  /** How much further elapsedRealtime moved than uptime between two callbacks: the time the device slept, and
      what one callback takes between its readings. */
  function Drift(last: Clocks, c: Clocks): int {
    (c.checked - last.stored) - (c.uptime - last.uptime)
  }

  /** While a message of the other kind waits, the clocks drift no further than `slack` from the latest callback
      of that kind to this one. */
  predicate DriftsAtMost(w: World, step: Step, slack: int) {
    OfFrontCamera(step) && Has(w.service.queue, Opposite(step.what)) && LastClocks(w, Opposite(step.what)).Some? ==>
      Drift(LastClocks(w, Opposite(step.what)).value, step.clocks) <= slack
  }

  lemma LittleDriftKeepsGap(w: World, step: Step, gap: int)
    requires Inv(w) && DriftsAtMost(w, step, DELAY - gap)
    ensures StepKeepsGap(w, step, gap)
  {
    if OfFrontCamera(step) {
      var q, other := w.service.queue, Opposite(step.what);
      forall i | 0 <= i < |q| && q[i].what == other && !Cancels(w.service, step.what, step.clocks)
        ensures q[i].due + gap <= step.clocks.uptime + DELAY
      {
        assert Has(q, other);
        assert Dated(w, q[i]);
      }
    }
  }

  /** In every run, opposite commands are the delay apart less the most that the clocks drift between opposite
      callbacks, whatever they drift at other times. */
  lemma DriftLimitsGap(states: seq<World>, steps: seq<Step>, slack: nat, n: nat)
    requires IsRun(states, steps) && n < |states|
    requires forall k | 0 <= k < |steps| :: DriftsAtMost(states[k], steps[k], slack)
    ensures Spaced(states[n].service.handled, DELAY - slack)
  {
    forall k | 0 <= k < n
      ensures StepKeepsGap(states[k], steps[k], DELAY - slack)
    {
      RunsKeepInv(states, steps, k);
      LittleDriftKeepsGap(states[k], steps[k], DELAY - slack);
    }
    OppositeCommandsAreSpaced(states, steps, DELAY - slack, n);
  }

  /** While a message of the other kind waits, the callback takes its readings in one instant, and the device did
      not sleep since the latest callback of that kind. */
  predicate OneInstantAwake(w: World, step: Step) {
    OfFrontCamera(step) && Has(w.service.queue, Opposite(step.what)) && LastClocks(w, Opposite(step.what)).Some? ==>
      var last := LastClocks(w, Opposite(step.what)).value;
      step.clocks.stored == step.clocks.checked && step.clocks.uptime - last.uptime == step.clocks.stored - last.stored
  }

  /** The gap is the whole delay when callbacks are instantaneous and the device sleeps at other times only. */
  lemma OneClockGivesWholeDelay(states: seq<World>, steps: seq<Step>, n: nat)
    requires IsRun(states, steps) && n < |states|
    requires forall k | 0 <= k < |steps| :: OneInstantAwake(states[k], steps[k])
    ensures Spaced(states[n].service.handled, 100)
  {
    forall k | 0 <= k < |steps|
      ensures DriftsAtMost(states[k], steps[k], 0)
    {
      assert OneInstantAwake(states[k], steps[k]);
    }
    DriftLimitsGap(states, steps, 0, n);
  }

  function TwoEvents(first: Clocks, second: Clocks): seq<Step> {
    [Event(Open, FRONT_CAMERA_ID, first), Event(Closed, FRONT_CAMERA_ID, second)]
  }

  /** An open event and, at least the delay of elapsedRealtime later, a closed one, before the handler ran. */
  lemma OpenedFirst(u0: int)
    ensures var w0 := World(CREATED, 0, u0, None, None, None);
            var first := Event(Open, FRONT_CAMERA_ID, Clocks(0, 0, u0));
            && IsRun([w0, Apply(w0, first)], [first])
            && Apply(w0, first).service == Service(0, 0, [Message(Open, u0 + DELAY)], [], None)
  {
  }

  lemma TwoEventRun(u0: int, t: int, u1: int) returns (states: seq<World>)
    requires u0 <= u1 && t >= DELAY
    ensures IsRun(states, TwoEvents(Clocks(0, 0, u0), Clocks(t, t, u1)))
    ensures Commands(states[2].service) == [Message(Open, u0 + DELAY), Message(Closed, u1 + DELAY)]
  {
    var first, second := Event(Open, FRONT_CAMERA_ID, Clocks(0, 0, u0)), Event(Closed, FRONT_CAMERA_ID, Clocks(t, t, u1));
    var w0 := World(CREATED, 0, u0, None, None, None);
    var w1 := Apply(w0, first);
    OpenedFirst(u0);
    RunsKeepInv([w0, w1], [first], 1);
    ExtendRun([w0, w1], [first], second);
    states := [w0, w1] + [Apply(w1, second)];
    assert [first] + [second] == TwoEvents(Clocks(0, 0, u0), Clocks(t, t, u1));
    KeptCommands(w1, Closed, second.clocks);
  }

  /** Both are executed, as far apart as the uptimes were. */
  lemma TwoEventsExecuted(u0: int, t: int, u1: int)
    requires u0 <= u1 && t >= DELAY
    ensures exists states: seq<World>, steps: seq<Step> ::
              && IsRun(states, steps) && OnlyExecutes(TwoEvents(Clocks(0, 0, u0), Clocks(t, t, u1)), steps)
              && states[|steps|].service.handled == [Message(Open, u0 + DELAY), Message(Closed, u1 + DELAY)]
  {
    var states := TwoEventRun(u0, t, u1);
    var states', steps' := HandlerDrains(states, TwoEvents(Clocks(0, 0, u0), Clocks(t, t, u1)));
  }

  /** The first cause: the device sleeps between two callbacks that are instantaneous themselves. Opposite commands
      are then executed only as far apart as it was awake. */
  lemma SleepBunchesCommands(awake: nat, asleep: nat)
    requires awake < DELAY <= awake + asleep
    ensures exists states: seq<World>, steps: seq<Step> ::
              && IsRun(states, steps)
              && OnlyExecutes(TwoEvents(Clocks(0, 0, 0), Clocks(awake + asleep, awake + asleep, awake)), steps)
              && states[|steps|].service.handled == [Message(Open, DELAY), Message(Closed, awake + DELAY)]
              && !Spaced(states[|steps|].service.handled, DELAY)
  {
    TwoEventsExecuted(0, awake + asleep, awake);
    BunchedPair(DELAY, awake + DELAY);
  }

  /** The second cause: a callback reads uptime `late` after the event time it stores. */
  lemma LateReadingsBunchCommands(late: nat)
    requires 0 < late <= DELAY
    ensures exists states: seq<World>, steps: seq<Step> ::
              && IsRun(states, steps)
              && OnlyExecutes(TwoEvents(Clocks(0, 0, late), Clocks(DELAY, DELAY, DELAY)), steps)
              && states[|steps|].service.handled == [Message(Open, late + DELAY), Message(Closed, 2 * DELAY)]
              && !Spaced(states[|steps|].service.handled, DELAY)
  {
    TwoEventsExecuted(late, DELAY, DELAY);
    BunchedPair(late + DELAY, 2 * DELAY);
  }

  lemma BunchedPair(a: int, b: int)
    requires a <= b < a + DELAY
    ensures !Spaced([Message(Open, a), Message(Closed, b)], DELAY)
  {
    var ms := [Message(Open, a), Message(Closed, b)];
    assert ms[0].what != ms[1].what && Distance(ms[0].due, ms[1].due) < DELAY;
  }

  /** The last event wins: whenever the queue is drained after some event of the front camera, the motor was last driven
      down if the camera became available last, and up if it became unavailable, whatever events and cancellations
      came before. */
  lemma LatestEventWins(states: seq<World>, steps: seq<Step>, n: nat)
    requires IsRun(states, steps) && n < |states|
    requires states[n].latest.Some? && states[n].service.queue == []
    ensures states[n].latest == Some(Closed) ==> states[n].service.direction == Some(Down)
    ensures states[n].latest == Some(Open) ==> states[n].service.direction == Some(Up)
  {
    RunsKeepInv(states, steps, n);
    assert Commands(states[n].service) == states[n].service.handled;
  }

  // ---- The service ----

  class CameraMotorService {
    var closedEvent: int
    var openEvent: int
    /** The handler's message queue. */
    var queue: seq<Message>
    /** The messages handled, for which the motor was driven. */
    var handled: seq<Message>
    /** The direction last written to the motor, and how often it was started. */
    var direction: Option<Direction>
    var starts: nat

    ghost function State(): Service
      reads this
    {
      Service(closedEvent, openEvent, queue, handled, direction)
    }

    constructor ()
      ensures State() == CREATED && starts == 0
    {
      closedEvent, openEvent, queue, handled, direction, starts := 0, 0, [], [], None, 0;
    }

    method OnCameraAvailable(cameraId: string, c: Clocks)
      modifies `closedEvent, `queue
      ensures State() == if cameraId == "1" then OnEvent(old(State()), Closed, c) else old(State())
    {
      if cameraId == FRONT_CAMERA_ID {
        closedEvent := c.stored;
        CancelIfRecent(Open, c.checked, openEvent);
        queue := Insert(queue, Message(Closed, c.uptime + DELAY));
      }
    }

    method OnCameraUnavailable(cameraId: string, c: Clocks)
      modifies `openEvent, `queue
      ensures State() == if cameraId == "1" then OnEvent(old(State()), Open, c) else old(State())
    {
      if cameraId == FRONT_CAMERA_ID {
        openEvent := c.stored;
        CancelIfRecent(Closed, c.checked, closedEvent);
        queue := Insert(queue, Message(Open, c.uptime + DELAY));
      }
    }

    method CancelIfRecent(what: What, checked: int, eventTime: int)
      modifies `queue
      ensures queue == if checked - eventTime < DELAY && Has(old(queue), what) then Remove(old(queue), what) else old(queue)
    {
      if checked - eventTime < DELAY && Has(queue, what) {
        queue := Remove(queue, what);
      }
    }

    method HandleMessage(msg: Message) returns (handledIt: bool)
      modifies `handled, `direction, `starts
      ensures handledIt && handled == old(handled) + [msg]
      ensures msg.what == Closed ==> direction == Some(Down)
      ensures msg.what == Open ==> direction == Some(Up)
      ensures starts == old(starts) + 1
    {
      match msg.what {
        case Closed =>
          direction := Some(Down);
        case Open =>
          direction := Some(Up);
      }
      starts := starts + 1;
      handled := handled + [msg];
      handledIt := true;
    }

    /** The looper: the first message of the queue is taken out and handled. */
    method DispatchNext()
      requires queue != []
      modifies `queue, `handled, `direction, `starts
      ensures State() == HandleNext(old(State())) && starts == old(starts) + 1
    {
      var msg := queue[0];
      queue := queue[1..];
      var _ := HandleMessage(msg);
    }
  }
}
