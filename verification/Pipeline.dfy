/** The proxy's event pipeline as a step system: sub-HAL threads, the writer thread, the wakelock thread
    and the framework interleave freely. Each step is what one of them does between two points at which
    it holds no mutex of the proxy. */
module Pipeline {
  import opened Basics
  import opened SensorHandles
  import opened SensorTypes
  import opened Histories
  import PW = PendingWrites
  import WL = Wakelock

  /** kMaxSizePendingWriteEventsQueue, kWakelockTimeoutNs and the handles flagged WAKE_UP. */
  datatype Config = Config(maxPending: nat, timeout: nat, wake: set<int32>)

  /** A live, locked scoped wakelock: what it added to the count, and when. */
  datatype Token = Token(amount: nat, start: int)

  datatype Reader = Waiting | Reading(timeLeft: int)

  /** `queue`, `lock` and `reader` are the proxy's state; `tokens` and `acks` are live scoped wakelocks and
      the content of the wakelock message queue; the rest are histories the code does not keep. The first `read`
      of the delivered events are no longer in the message queue: the framework read or a stop discarded them. */
  datatype World = World(
    queue: PW.Queue, lock: WL.Lock, reader: Reader,
    clock: int, tokens: seq<Token>, acks: seq<nat>,
    posted: seq<Event>, fates: seq<Fate>, delivered: seq<Event>, read: nat, consumed: nat)

  datatype Step =
    | CreateToken(amount: nat, now: int)
    | ReleaseToken(i: nat)
    | Post(events: seq<Event>, wakeups: nat, token: Option<nat>, available: nat, writeOk: bool, now: int)
    | DrainBegin(quantum: nat)
    | DrainWrite(ok: bool)
    | DrainEnd
    | WakeCheck(now: int, resetNow: int)
    | WakeRead
    | WakeReadFails
    | FrameworkReads(n: nat)
    | FrameworkAcks(n: nat)
    | Stop
    | Init(now: int)

  /** What the code and its clock guarantee of a step; every outcome of a write or read is allowed.
      A post whose scoped wakelock is locked names the live token it is; the token is released later, when it goes
      out of scope. `Init` comes after both threads were joined. That the front list is there throughout a write
      is part of every reachable state (see Inv). */
  predicate Enabled(w: World, step: Step) {
    match step
    case CreateToken(amount, now) => amount > 0 && w.clock <= now
    case ReleaseToken(i) => i < |w.tokens|
    case Post(_, _, token, _, _, now) => w.clock <= now && (token.Some? ==> token.value < |w.tokens|)
    case DrainBegin(_) => w.lock.running && w.queue.pending != [] && w.queue.writer.Idle?
    case DrainWrite(_) => w.queue.pending != [] && w.queue.writer.Writing?
    case DrainEnd => w.queue.pending != [] && w.queue.writer.Written?
    case WakeCheck(now, resetNow) => w.lock.running && w.lock.refCount > 0 && w.reader.Waiting? && w.clock <= now <= resetNow
    case WakeRead => w.reader.Reading? && w.acks != []
    case WakeReadFails => w.reader.Reading?
    case FrameworkReads(n) => w.read + n <= |w.delivered|
    case FrameworkAcks(_) => true
    case Stop => true
    case Init(now) => !w.lock.running && w.queue.writer.Idle? && w.reader.Waiting? && w.clock <= now
  }

  function LockOps(cfg: Config, w: World, step: Step): seq<WL.Op>
    requires Enabled(w, step)
  {
    match step
    case CreateToken(amount, now) => [WL.Inc(amount, now)]
    case ReleaseToken(i) => [WL.Dec(w.tokens[i].amount, w.tokens[i].start)]
    case Post(_, wakeups, token, _, _, now) => if token.Some? then [WL.Inc(wakeups, now)] else []
    case DrainWrite(ok) => if !ok && w.queue.writer.wakeups > 0 then [WL.Dec(PW.GiveBack(cfg.wake, w.queue), WL.NO_START)] else []
    case WakeCheck(now, resetNow) => if WL.DidTimeout(w.lock, now, cfg.timeout) then [WL.Reset(resetNow)] else []
    case WakeRead => [WL.Dec(w.acks[0], WL.NO_START)]
    case Stop => [WL.SetRunning(false)]
    case Init(now) => [WL.Reset(now), WL.SetRunning(true)]
    case _ => []
  }

  function ApplyPost(cfg: Config, w: World, events: seq<Event>, wakeups: nat, available: nat, writeOk: bool): World {
    var n := PW.Direct(w.queue, events, available, writeOk);
    var tailFate := if PW.TailFits(w.queue, cfg.maxPending, events[n..]) then Queued else Lost;
    w.(queue := PW.PostTo(w.queue, cfg.maxPending, events, wakeups, available, writeOk),
       posted := w.posted + events,
       fates := w.fates + (Repeat(Sent, n) + Repeat(tailFate, |events| - n)),
       delivered := w.delivered + events[..n])
  }

  function ApplyWrite(w: World, ok: bool): World
    requires w.queue.pending != [] && w.queue.writer.Writing?
  {
    var n := w.queue.writer.count;
    var front := w.queue.pending[0].events;
    w.(queue := PW.FinishWrite(w.queue),
       fates := Settle(w.fates, n, if ok then Sent else Lost),
       delivered := if ok && n <= |front| then w.delivered + front[..n] else w.delivered)
  }

  /** A step without its effect on the lock. */
  function ApplyOthers(cfg: Config, w: World, step: Step): World
    requires Enabled(w, step)
  {
    match step
    case CreateToken(amount, now) =>
      w.(clock := now, tokens := if w.lock.running then w.tokens + [Token(amount, now)] else w.tokens)
    case ReleaseToken(i) => w.(tokens := w.tokens[..i] + w.tokens[i + 1..])
    case Post(events, wakeups, _, available, writeOk, now) =>
      ApplyPost(cfg, w, events, wakeups, available, writeOk).(clock := now)
    case DrainBegin(quantum) => w.(queue := PW.BeginWrite(w.queue, quantum))
    case DrainWrite(ok) => ApplyWrite(w, ok)
    case DrainEnd => w.(queue := PW.EndWrite(w.queue))
    case WakeCheck(now, resetNow) =>
      if WL.DidTimeout(w.lock, now, cfg.timeout) then w.(clock := resetNow)
      else w.(clock := now, reader := Reading(cfg.timeout - (now - w.lock.timeoutStart)))
    case WakeRead => w.(reader := Waiting, acks := w.acks[1..], consumed := w.consumed + w.acks[0])
    case WakeReadFails => w.(reader := Waiting)
    case FrameworkReads(n) => w.(read := w.read + n)
    case FrameworkAcks(n) => w.(acks := w.acks + [n])
    case Stop => w.(acks := w.acks + [0], read := |w.delivered|)
    case Init(now) =>
      w.(clock := now, acks := [], read := |w.delivered|,
         queue := w.queue.(pending := [], size := 0),
         fates := Settle(w.fates, |PW.Outstanding(w.queue)|, Lost))
  }

  function Apply(cfg: Config, w: World, step: Step): World
    requires Enabled(w, step)
  {
    ApplyOthers(cfg, w, step).(lock := WL.RunOps(w.lock, LockOps(cfg, w, step)))
  }

  /** The proxy as constructed: threads not yet started. */
  const FRESH: World :=
    World(PW.EMPTY, WL.Lock(false, 0, 0, 0, []), Waiting, 0, [], [], [], [], [], 0, 0)

  /** A run: every state but the first comes from the one before it by an enabled step. */
  ghost predicate IsRun(cfg: Config, states: seq<World>, steps: seq<Step>) {
    && |states| == |steps| + 1
    && forall i | 0 <= i < |steps| :: Enabled(states[i], steps[i]) && states[i + 1] == Apply(cfg, states[i], steps[i])
  }

  // ---- Order and accounting ----

  ghost predicate Inv(cfg: Config, w: World) {
    && PW.Valid(w.queue, cfg.maxPending)
    && |w.fates| == |w.posted|
    && Ordered(w.fates)
    && w.delivered == Pick(w.posted, w.fates, Sent)
    && PW.Outstanding(w.queue) == Pick(w.posted, w.fates, Queued)
  }

  lemma PickAppended(w: World, events: seq<Event>, n: nat, tailFate: Fate, f: Fate)
    requires |w.fates| == |w.posted| && n <= |events|
    ensures Pick(w.posted + events, w.fates + (Repeat(Sent, n) + Repeat(tailFate, |events| - n)), f)
         == Pick(w.posted, w.fates, f) + ((if f == Sent then events[..n] else []) + (if f == tailFate then events[n..] else []))
  {
    PickConcat(w.posted, w.fates, events, Repeat(Sent, n) + Repeat(tailFate, |events| - n), f);
    PickRepeats(events, n, Sent, tailFate, f);
  }

  lemma AppendKeepsOrder(fates: seq<Fate>, n: nat, tailFate: Fate, m: nat)
    requires Ordered(fates) && (n == 0 || Queued !in fates) && tailFate != Sent
    ensures Ordered(fates + (Repeat(Sent, n) + Repeat(tailFate, m)))
  {
  }

  lemma PostKeepsOrder(cfg: Config, w: World, events: seq<Event>, wakeups: nat, available: nat, writeOk: bool)
    requires Inv(cfg, w)
    ensures Ordered(ApplyPost(cfg, w, events, wakeups, available, writeOk).fates)
  {
    var n := PW.Direct(w.queue, events, available, writeOk);
    var tailFate := if PW.TailFits(w.queue, cfg.maxPending, events[n..]) then Queued else Lost;
    PW.PostAppends(w.queue, cfg.maxPending, events, wakeups, available, writeOk);
    NothingPicked(w.posted, w.fates, Queued);
    AppendKeepsOrder(w.fates, n, tailFate, |events| - n);
  }

  lemma PostSends(cfg: Config, w: World, events: seq<Event>, wakeups: nat, available: nat, writeOk: bool)
    requires |w.fates| == |w.posted| && w.delivered == Pick(w.posted, w.fates, Sent)
    ensures var w' := ApplyPost(cfg, w, events, wakeups, available, writeOk);
            && |w'.fates| == |w'.posted|
            && w'.delivered == Pick(w'.posted, w'.fates, Sent)
  {
    var n := PW.Direct(w.queue, events, available, writeOk);
    var tailFate := if PW.TailFits(w.queue, cfg.maxPending, events[n..]) then Queued else Lost;
    PickAppended(w, events, n, tailFate, Sent);
  }

  lemma PostQueues(cfg: Config, w: World, events: seq<Event>, wakeups: nat, available: nat, writeOk: bool)
    requires |w.fates| == |w.posted|
    ensures var w' := ApplyPost(cfg, w, events, wakeups, available, writeOk);
            var n := PW.Direct(w.queue, events, available, writeOk);
            && |w'.fates| == |w'.posted|
            && Pick(w'.posted, w'.fates, Queued) == Pick(w.posted, w.fates, Queued)
                 + (if PW.TailFits(w.queue, cfg.maxPending, events[n..]) then events[n..] else [])
  {
    var n := PW.Direct(w.queue, events, available, writeOk);
    var tailFate := if PW.TailFits(w.queue, cfg.maxPending, events[n..]) then Queued else Lost;
    PickAppended(w, events, n, tailFate, Queued);
  }

  lemma PostKeepsInv(cfg: Config, w: World, events: seq<Event>, wakeups: nat, available: nat, writeOk: bool)
    requires Inv(cfg, w)
    ensures Inv(cfg, ApplyPost(cfg, w, events, wakeups, available, writeOk))
  {
    PW.PostAppends(w.queue, cfg.maxPending, events, wakeups, available, writeOk);
    PostSends(cfg, w, events, wakeups, available, writeOk);
    PostQueues(cfg, w, events, wakeups, available, writeOk);
    PostKeepsOrder(cfg, w, events, wakeups, available, writeOk);
  }

  lemma WriteKeepsInv(cfg: Config, w: World, ok: bool)
    requires Inv(cfg, w) && w.queue.writer.Writing?
    ensures w.queue.pending != [] && Inv(cfg, ApplyWrite(w, ok))
  {
    var n := w.queue.writer.count;
    PW.WriteTakesFrontChunk(w.queue, cfg.maxPending);
    SettleMoves(w.posted, w.fates, n, if ok then Sent else Lost);
    SettleKeepsOrder(w.fates, n, if ok then Sent else Lost);
  }

  lemma InitKeepsInv(cfg: Config, w: World, now: int)
    requires Inv(cfg, w) && Enabled(w, Init(now))
    ensures Inv(cfg, Apply(cfg, w, Init(now)))
  {
    var n := |PW.Outstanding(w.queue)|;
    SettleMoves(w.posted, w.fates, n, Lost);
    SettleKeepsOrder(w.fates, n, Lost);
  }

  lemma StepKeepsInv(cfg: Config, w: World, step: Step)
    requires Inv(cfg, w) && Enabled(w, step)
    ensures Inv(cfg, Apply(cfg, w, step))
  {
    match step
    case Post(events, wakeups, _, available, writeOk, now) => PostKeepsInv(cfg, w, events, wakeups, available, writeOk);
    case DrainWrite(ok) => WriteKeepsInv(cfg, w, ok);
    case DrainEnd => PW.EndWriteRemovesChunk(w.queue, cfg.maxPending);
    case Init(now) => InitKeepsInv(cfg, w, now);
    case _ =>
  }

  lemma {:induction false} RunsKeepInv(cfg: Config, states: seq<World>, steps: seq<Step>, i: nat)
    requires IsRun(cfg, states, steps) && Inv(cfg, states[0]) && i < |states|
    ensures Inv(cfg, states[i])
  {
    if i > 0 {
      RunsKeepInv(cfg, states, steps, i - 1);
      StepKeepsInv(cfg, states[i - 1], steps[i - 1]);
    }
  }

  /** Order across the unlocked window: in every state of every run, what was written to the message
      queue, followed by what is still to be written, is what was posted less what was dropped, in posting
      order. Whatever posts interleave with a chunk in flight, none overtakes. */
  lemma OrderIsPreserved(cfg: Config, states: seq<World>, steps: seq<Step>, i: nat)
    requires IsRun(cfg, states, steps) && states[0] == FRESH && i < |states|
    ensures var w := states[i];
            && |w.fates| == |w.posted|
            && w.delivered + PW.Outstanding(w.queue) == Kept(w.posted, w.fates)
            && w.delivered == Pick(w.posted, w.fates, Sent)
  {
    RunsKeepInv(cfg, states, steps, i);
    KeptIsSentThenQueued(states[i].posted, states[i].fates);
  }

  /** The only steps that drop events: an overflowing post, a failed write of the writer thread, and a
      re-initialisation with events pending. */
  predicate Drops(cfg: Config, w: World, step: Step)
    requires Enabled(w, step)
  {
    match step
    case Post(events, _, _, available, writeOk, _) =>
      var tail := events[PW.Direct(w.queue, events, available, writeOk)..];
      tail != [] && !PW.TailFits(w.queue, cfg.maxPending, tail)
    case DrainWrite(ok) => !ok && w.queue.writer.count > 0
    case Init(_) => w.queue.pending != []
    case _ => false
  }

  /** What a post does with each event: with nothing pending, as many as there is room for are written at once;
      the rest is queued, or dropped exactly when it does not fit under the bound. */
  lemma PostWritesWhatFits(cfg: Config, w: World, step: Step)
    requires Inv(cfg, w) && Enabled(w, step) && step.Post?
    ensures var w' := Apply(cfg, w, step);
            var n := if w.queue.pending == [] && step.writeOk then Min(|step.events|, step.available) else 0;
            var overflows := |step.events| > n && |PW.Flatten(w.queue.pending)| + |step.events| - n > cfg.maxPending;
            && w'.delivered == w.delivered + step.events[..n]
            && PW.Outstanding(w'.queue) == PW.Outstanding(w.queue) + (if overflows then [] else step.events[n..])
            && (Drops(cfg, w, step) <==> overflows)
  {
    PW.PostAppends(w.queue, cfg.maxPending, step.events, step.wakeups, step.available, step.writeOk);
  }

  lemma AppendedWithoutLoss(fates: seq<Fate>, n: nat, tailFate: Fate, m: nat)
    requires Lost !in fates && (tailFate != Lost || m == 0)
    ensures Lost !in fates + (Repeat(Sent, n) + Repeat(tailFate, m))
  {
    assert Lost !in Repeat(Sent, n) && Lost !in Repeat(tailFate, m);
  }

  lemma SettledWithoutLoss(fates: seq<Fate>, n: nat, f: Fate)
    requires Lost !in fates && f != Queued && (f == Sent || n == 0)
    ensures Lost !in Settle(fates, n, f)
  {
    SettleIsFinal(fates, n, f);
  }

  lemma DropFreeStepLosesNothing(cfg: Config, w: World, step: Step)
    requires Inv(cfg, w) && Enabled(w, step) && !Drops(cfg, w, step) && Lost !in w.fates
    ensures Lost !in Apply(cfg, w, step).fates
  {
    match step
    case Post(events, wakeups, _, available, writeOk, _) =>
      var n := PW.Direct(w.queue, events, available, writeOk);
      var tailFate := if PW.TailFits(w.queue, cfg.maxPending, events[n..]) then Queued else Lost;
      AppendedWithoutLoss(w.fates, n, tailFate, |events| - n);
      assert ApplyPost(cfg, w, events, wakeups, available, writeOk).fates == w.fates + (Repeat(Sent, n) + Repeat(tailFate, |events| - n));
    case DrainWrite(ok) => SettledWithoutLoss(w.fates, w.queue.writer.count, if ok then Sent else Lost);
    case Init(_) => SettledWithoutLoss(w.fates, |PW.Outstanding(w.queue)|, Lost);
    case _ =>
  }

  lemma {:induction false} RunsWithoutDropsLoseNothing(cfg: Config, states: seq<World>, steps: seq<Step>, i: nat)
    requires IsRun(cfg, states, steps) && states[0] == FRESH && i < |states|
    requires forall k | 0 <= k < i :: !Drops(cfg, states[k], steps[k])
    ensures Lost !in states[i].fates
    ensures states[i].delivered + PW.Outstanding(states[i].queue) == states[i].posted
  {
    if i > 0 {
      RunsWithoutDropsLoseNothing(cfg, states, steps, i - 1);
      RunsKeepInv(cfg, states, steps, i - 1);
      DropFreeStepLosesNothing(cfg, states[i - 1], steps[i - 1]);
    }
    OrderIsPreserved(cfg, states, steps, i);
    KeptAll(states[i].posted, states[i].fates);
  }

  /** Fates are final and delivery only appends: no step reorders or takes back what was decided. */
  lemma FatesAreFinal(cfg: Config, w: World, step: Step)
    requires Inv(cfg, w) && Enabled(w, step)
    ensures var w' := Apply(cfg, w, step);
            && w.posted <= w'.posted && w.delivered <= w'.delivered
            && |w'.fates| == |w'.posted|
            && forall i | 0 <= i < |w.posted| && w.fates[i] != Queued :: w'.fates[i] == w.fates[i]
  {
    match step
    case DrainWrite(ok) => SettleIsFinal(w.fates, w.queue.writer.count, if ok then Sent else Lost);
    case Init(_) => SettleIsFinal(w.fates, |PW.Outstanding(w.queue)|, Lost);
    case _ =>
    StepKeepsInv(cfg, w, step);
  }

  /** Accounting of the pending queue in every reachable state: the size is the sum of the queued lengths
      and within the bound, no queued list is empty, a chunk in flight never exceeds the size it will be
      subtracted from, and the high-water mark is the largest size any state so far had. */
  lemma PendingAccounting(cfg: Config, states: seq<World>, steps: seq<Step>, i: nat)
    requires IsRun(cfg, states, steps) && states[0] == FRESH && i < |states|
    ensures var q := states[i].queue;
            && q.size == |PW.Flatten(q.pending)| <= cfg.maxPending
            && (forall k | 0 <= k < |q.pending| :: q.pending[k].events != [])
            && (q.writer != PW.Idle ==> q.writer.count <= q.size)
    ensures forall k | 0 <= k <= i :: states[k].queue.size <= states[i].queue.most
    ensures exists k | 0 <= k <= i :: states[k].queue.size == states[i].queue.most
  {
    RunsKeepInv(cfg, states, steps, i);
    if states[i].queue.writer != PW.Idle {
      PW.FrontChunkIsPrefix(states[i].queue, cfg.maxPending);
    }
    HighWaterMark(cfg, states, steps, i);
  }

  lemma StepTracksMost(cfg: Config, w: World, step: Step)
    requires Enabled(w, step) && Inv(cfg, w)
    ensures var q, q' := w.queue, Apply(cfg, w, step).queue;
            q'.most == Max(q.most, q'.size)
  {
    StepKeepsInv(cfg, w, step);
  }

  lemma {:induction false} HighWaterMark(cfg: Config, states: seq<World>, steps: seq<Step>, i: nat)
    requires IsRun(cfg, states, steps) && states[0] == FRESH && i < |states|
    ensures forall k | 0 <= k <= i :: states[k].queue.size <= states[i].queue.most
    ensures exists k | 0 <= k <= i :: states[k].queue.size == states[i].queue.most
  {
    if i == 0 {
      assert states[0].queue.size == states[0].queue.most;
    } else {
      HighWaterMark(cfg, states, steps, i - 1);
      RunsKeepInv(cfg, states, steps, i - 1);
      StepTracksMost(cfg, states[i - 1], steps[i - 1]);
      var most := states[i - 1].queue.most;
      var k :| 0 <= k <= i - 1 && states[k].queue.size == most;
      var reached := if states[i].queue.most == most then k else i;
      assert states[reached].queue.size == states[i].queue.most;
    }
  }

  // ---- Waiting for acknowledgements, and starting anew ----

  ghost predicate ClockInv(cfg: Config, w: World) {
    && w.lock.timeoutStart <= w.clock
    && (w.reader.Reading? ==> 0 <= w.reader.timeLeft <= cfg.timeout)
  }

  lemma LockOpsAre(cfg: Config, w: World, step: Step)
    requires Enabled(w, step)
    ensures var ops, lock := LockOps(cfg, w, step), Apply(cfg, w, step).lock;
            && |ops| <= 2
            && (|ops| == 0 ==> lock == w.lock)
            && (|ops| == 1 ==> lock == WL.ApplyOp(w.lock, ops[0]))
            && (|ops| == 2 ==> lock == WL.ApplyOp(WL.ApplyOp(w.lock, ops[0]), ops[1]))
  {
    var ops := LockOps(cfg, w, step);
    if |ops| == 1 {
      assert ops == [ops[0]];
      WL.RunOne(w.lock, ops[0]);
    } else if |ops| == 2 {
      assert ops == [ops[0], ops[1]];
      WL.RunTwo(w.lock, ops[0], ops[1]);
    }
  }

  lemma StepKeepsClockInv(cfg: Config, w: World, step: Step)
    requires ClockInv(cfg, w) && Enabled(w, step)
    ensures ClockInv(cfg, Apply(cfg, w, step))
  {
    LockOpsAre(cfg, w, step);
  }

  /** With a clock that never runs backwards, the wakelock thread never waits for less than nothing or for
      more than the timeout, however posts and acknowledgements interleave. */
  lemma {:induction false} TimeLeftIsInRange(cfg: Config, states: seq<World>, steps: seq<Step>, i: nat)
    requires IsRun(cfg, states, steps) && states[0] == FRESH && i < |states|
    ensures ClockInv(cfg, states[i])
  {
    if i > 0 {
      TimeLeftIsInRange(cfg, states, steps, i - 1);
      StepKeepsClockInv(cfg, states[i - 1], steps[i - 1]);
    }
  }

  /** The step counts something up on the shared lock. */
  predicate Increments(w: World, step: Step) {
    w.lock.running && (step.CreateToken? || (step.Post? && step.token.Some?))
  }

  /** When the first `n` steps last counted up; zero if they never did. */
  function LastIncrement(states: seq<World>, steps: seq<Step>, n: nat): int
    requires n <= |steps| < |states|
  {
    if n == 0 then 0
    else if Increments(states[n - 1], steps[n - 1]) then steps[n - 1].now
    else LastIncrement(states, steps, n - 1)
  }

  lemma {:induction false} TimeoutRunsFromLastIncrement(cfg: Config, states: seq<World>, steps: seq<Step>, i: nat)
    requires IsRun(cfg, states, steps) && states[0] == FRESH && i < |states|
    ensures states[i].lock.timeoutStart == LastIncrement(states, steps, i)
  {
    if i > 0 {
      TimeoutRunsFromLastIncrement(cfg, states, steps, i - 1);
      LockOpsAre(cfg, states[i - 1], steps[i - 1]);
    }
  }

  /** The timeout, in every run, increments by zero included: a pass of the wakelock thread more than the timeout after
      the last increment ends with count zero and the system's lock released; any other leaves the lock alone and
      waits for between zero and the timeout. */
  lemma PassReleasesOrWaits(cfg: Config, states: seq<World>, steps: seq<Step>, i: nat)
    requires IsRun(cfg, states, steps) && states[0] == FRESH && i < |steps| && steps[i].WakeCheck?
    ensures var lock, after := states[i].lock, states[i + 1];
            if steps[i].now - LastIncrement(states, steps, i) > cfg.timeout then
              after.lock.refCount == 0 && !WL.Held(after.lock.calls) && after.reader.Waiting?
            else
              after.lock == lock && after.reader.Reading? && 0 <= after.reader.timeLeft <= cfg.timeout
  {
    TimeoutRunsFromLastIncrement(cfg, states, steps, i);
    TimeLeftIsInRange(cfg, states, steps, i + 1);
    LockOpsAre(cfg, states[i], steps[i]);
  }

  /** Nothing was reset or created in the future, and nothing before time zero. */
  ghost predicate StartsInv(w: World) {
    && 0 <= w.lock.resetTime <= w.clock
    && forall i | 0 <= i < |w.tokens| :: 0 <= w.tokens[i].start <= w.clock
  }

  lemma StepKeepsStartsInv(cfg: Config, w: World, step: Step)
    requires StartsInv(w) && Enabled(w, step)
    ensures StartsInv(Apply(cfg, w, step)) && w.lock.resetTime <= Apply(cfg, w, step).lock.resetTime
  {
    LockOpsAre(cfg, w, step);
  }

  lemma {:induction false} RunsKeepStartsInv(cfg: Config, states: seq<World>, steps: seq<Step>, i: nat, j: nat)
    requires IsRun(cfg, states, steps) && states[0] == FRESH && i <= j < |states|
    ensures StartsInv(states[j]) && states[i].lock.resetTime <= states[j].lock.resetTime
  {
    if j > 0 {
      RunsKeepStartsInv(cfg, states, steps, if i < j then i else j - 1, j - 1);
      StepKeepsStartsInv(cfg, states[j - 1], steps[j - 1]);
    }
  }

  /** A start before the last reset is stale for good: in no later state, whatever timeouts, stops and
      re-initialisations come in between, does giving back with that start change the lock. */
  lemma StaleStartsInRuns(cfg: Config, states: seq<World>, steps: seq<Step>, i: nat, j: nat, delta: nat, start: int)
    requires IsRun(cfg, states, steps) && states[0] == FRESH && i <= j < |states|
    requires 0 <= start < states[i].lock.resetTime
    ensures WL.Decrement(states[j].lock, delta, start) == states[j].lock
  {
    RunsKeepStartsInv(cfg, states, steps, i, j);
  }

  /** Re-initialisation keeps the count as it was, and from then on, in every later state, the release of a scoped
      wakelock created before it gives nothing back. */
  lemma ReinitialisationStrandsTokens(cfg: Config, states: seq<World>, steps: seq<Step>, i: nat, j: nat, t: nat)
    requires IsRun(cfg, states, steps) && states[0] == FRESH && i < j < |states|
    requires steps[i].Init? && t < |states[j].tokens| && states[j].tokens[t].start < steps[i].now
    ensures states[i + 1].lock == states[i].lock.(running := true, resetTime := steps[i].now)
    ensures Enabled(states[j], ReleaseToken(t)) && Apply(cfg, states[j], ReleaseToken(t)).lock == states[j].lock
  {
    LockOpsAre(cfg, states[i], steps[i]);
    RunsKeepStartsInv(cfg, states, steps, i + 1, j);
    LockOpsAre(cfg, states[j], ReleaseToken(t));
  }

  // ---- Reachable states ----

  ghost predicate Reachable(cfg: Config, w: World) {
    exists states: seq<World>, steps: seq<Step> :: IsRun(cfg, states, steps) && states[0] == FRESH && states[|steps|] == w
  }

  lemma FreshIsReachable(cfg: Config)
    ensures Reachable(cfg, FRESH)
  {
    assert IsRun(cfg, [FRESH], []);
  }

  lemma ExtendRun(cfg: Config, states: seq<World>, steps: seq<Step>, step: Step, next: World)
    requires IsRun(cfg, states, steps) && Enabled(states[|steps|], step) && next == Apply(cfg, states[|steps|], step)
    ensures IsRun(cfg, states + [next], steps + [step])
  {
    var states', steps' := states + [next], steps + [step];
    forall i | 0 <= i < |steps'|
      ensures Enabled(states'[i], steps'[i]) && states'[i + 1] == Apply(cfg, states'[i], steps'[i])
    {
      if i < |steps| {
        assert states'[i] == states[i] && states'[i + 1] == states[i + 1] && steps'[i] == steps[i];
      }
    }
  }

  lemma ReachOneMore(cfg: Config, w: World, step: Step)
    requires Reachable(cfg, w) && Enabled(w, step)
    ensures Reachable(cfg, Apply(cfg, w, step))
  {
    var states: seq<World>, steps: seq<Step> :| IsRun(cfg, states, steps) && states[0] == FRESH && states[|steps|] == w;
    var next := Apply(cfg, w, step);
    ExtendRun(cfg, states, steps, step, next);
    assert (states + [next])[|steps + [step]|] == next;
  }
}
