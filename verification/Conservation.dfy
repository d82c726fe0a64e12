/** What the shared count stands for: live scoped wakelocks plus wake-up events not yet acknowledged. */
module Conservation {
  import opened Basics
  import opened SensorHandles
  import opened SensorTypes
  import opened Pipeline
  import PW = PendingWrites
  import WL = Wakelock

  function SumTokens(tokens: seq<Token>): nat {
    if tokens == [] then 0 else tokens[0].amount + SumTokens(tokens[1..])
  }

  function Sum(acks: seq<nat>): nat {
    if acks == [] then 0 else acks[0] + Sum(acks[1..])
  }

  /** Wake-up events that were posted and not dropped. */
  function Live(cfg: Config, w: World): nat {
    WakeUps(cfg.wake, w.delivered) + WakeUps(cfg.wake, PW.Outstanding(w.queue))
  }

  /** The count is what live tokens added plus the wake-up events not dropped and not yet acknowledged. */
  predicate Balanced(cfg: Config, w: World) {
    w.lock.refCount + w.consumed == SumTokens(w.tokens) + Live(cfg, w)
  }

  /** The framework acknowledges only wake-up events it has read. */
  predicate Disciplined(cfg: Config, w: World) {
    w.read <= |w.delivered| && w.consumed + Sum(w.acks) <= WakeUps(cfg.wake, w.delivered[..w.read])
  }

  /** Threads run, and every live token is younger than the last reset. */
  predicate Current(w: World) {
    && w.lock.running && 0 <= w.clock && w.lock.resetTime <= w.clock
    && forall i | 0 <= i < |w.tokens| :: 0 <= w.tokens[i].start && w.lock.resetTime <= w.tokens[i].start
  }

  ghost predicate Good(cfg: Config, w: World) {
    Inv(cfg, w) && Balanced(cfg, w) && Disciplined(cfg, w) && Current(w)
  }

  /** The events of a post that are written or queued. */
  function Accepted(cfg: Config, w: World, events: seq<Event>, available: nat, writeOk: bool): seq<Event> {
    var n := PW.Direct(w.queue, events, available, writeOk);
    events[..n] + (if PW.TailFits(w.queue, cfg.maxPending, events[n..]) then events[n..] else [])
  }

  /** The chunk the writer thread is writing. */
  function Chunk(q: PW.Queue): seq<Event>
    requires q.pending != [] && q.writer.Writing?
  {
    q.pending[0].events[..Min(q.writer.count, |q.pending[0].events|)]
  }

  /** The exact condition under which a step of running threads keeps the balance. A post must count the
      wake-up events it does not drop; a failed write must give back those of the chunk it drops; the
      timeout must not strike. */
  predicate Fair(cfg: Config, w: World, step: Step)
    requires Enabled(w, step)
  {
    match step
    case Post(events, wakeups, token, available, writeOk, _) =>
      (if token.Some? then wakeups else 0) == WakeUps(cfg.wake, Accepted(cfg, w, events, available, writeOk))
    case DrainWrite(ok) =>
      ok || Min(w.lock.refCount, PW.GiveBack(cfg.wake, w.queue)) == WakeUps(cfg.wake, Chunk(w.queue))
    case WakeCheck(now, _) => !WL.DidTimeout(w.lock, now, cfg.timeout)
    case _ => true
  }

  /** The steps the claim is about: no stop, no re-initialisation, acknowledgements only of what was read. */
  predicate Covered(cfg: Config, w: World, step: Step) {
    match step
    case Stop => false
    case Init(_) => false
    case FrameworkAcks(n) =>
      w.read <= |w.delivered| && w.consumed + Sum(w.acks) + n <= WakeUps(cfg.wake, w.delivered[..w.read])
    case _ => true
  }

  /** The step makes the decrement log its "delta > count" error. */
  predicate LogsOverdraw(cfg: Config, w: World, step: Step)
    requires Enabled(w, step)
  {
    var ops := LockOps(cfg, w, step);
    ops != [] && ops[0].Dec? && WL.Overdraws(w.lock, ops[0].delta)
  }

  lemma {:induction false} SumTokensConcat(a: seq<Token>, b: seq<Token>)
    ensures SumTokens(a + b) == SumTokens(a) + SumTokens(b)
  {
    if a == [] {
      assert a + b == b;
    } else {
      assert (a + b)[1..] == a[1..] + b;
      SumTokensConcat(a[1..], b);
    }
  }

  lemma SumWithoutToken(tokens: seq<Token>, i: nat)
    requires i < |tokens|
    ensures SumTokens(tokens) == tokens[i].amount + SumTokens(tokens[..i] + tokens[i + 1..])
  {
    assert tokens == tokens[..i] + ([tokens[i]] + tokens[i + 1..]);
    SumTokensConcat(tokens[..i], [tokens[i]] + tokens[i + 1..]);
    SumTokensConcat([tokens[i]], tokens[i + 1..]);
    SumTokensConcat(tokens[..i], tokens[i + 1..]);
    assert [tokens[i]][1..] == [];
  }

  lemma {:induction false} SumConcat(a: seq<nat>, b: seq<nat>)
    ensures Sum(a + b) == Sum(a) + Sum(b)
  {
    if a == [] {
      assert a + b == b;
    } else {
      assert (a + b)[1..] == a[1..] + b;
      SumConcat(a[1..], b);
    }
  }

  lemma DisciplinedBound(cfg: Config, w: World)
    requires Disciplined(cfg, w)
    ensures w.consumed + Sum(w.acks) <= WakeUps(cfg.wake, w.delivered)
  {
    WakeUpsSplit(cfg.wake, w.delivered, w.read);
  }

  lemma DeliveryKeepsDiscipline(cfg: Config, w: World, more: seq<Event>)
    requires Disciplined(cfg, w)
    ensures Disciplined(cfg, w.(delivered := w.delivered + more))
  {
    assert (w.delivered + more)[..w.read] == w.delivered[..w.read];
  }

  // ---- One step at a time ----

  lemma PostLive(cfg: Config, w: World, events: seq<Event>, wakeups: nat, available: nat, writeOk: bool)
    requires Inv(cfg, w)
    ensures Live(cfg, ApplyPost(cfg, w, events, wakeups, available, writeOk))
         == Live(cfg, w) + WakeUps(cfg.wake, Accepted(cfg, w, events, available, writeOk))
  {
    var n := PW.Direct(w.queue, events, available, writeOk);
    var tail := if PW.TailFits(w.queue, cfg.maxPending, events[n..]) then events[n..] else [];
    PW.PostAppends(w.queue, cfg.maxPending, events, wakeups, available, writeOk);
    WakeUpsConcat(cfg.wake, w.delivered, events[..n]);
    WakeUpsConcat(cfg.wake, PW.Outstanding(w.queue), tail);
    WakeUpsConcat(cfg.wake, events[..n], tail);
  }

  lemma PostBalance(cfg: Config, w: World, step: Step)
    requires Inv(cfg, w) && Balanced(cfg, w) && w.lock.running && step.Post? && Enabled(w, step)
    ensures Balanced(cfg, Apply(cfg, w, step)) <==> Fair(cfg, w, step)
  {
    PostLive(cfg, w, step.events, step.wakeups, step.available, step.writeOk);
    if step.token.Some? {
      WL.RunOne(w.lock, WL.Inc(step.wakeups, step.now));
    }
  }

  lemma PostDiscipline(cfg: Config, w: World, step: Step)
    requires Disciplined(cfg, w) && Current(w) && step.Post? && Enabled(w, step)
    ensures Disciplined(cfg, Apply(cfg, w, step)) && Current(Apply(cfg, w, step))
  {
    DeliveryKeepsDiscipline(cfg, w, step.events[..PW.Direct(w.queue, step.events, step.available, step.writeOk)]);
    if step.token.Some? {
      WL.RunOne(w.lock, WL.Inc(step.wakeups, step.now));
    }
  }

  lemma WriteLive(cfg: Config, w: World, ok: bool)
    requires Inv(cfg, w) && w.queue.pending != [] && w.queue.writer.Writing?
    ensures Live(cfg, ApplyWrite(w, ok)) == Live(cfg, w) - (if ok then 0 else WakeUps(cfg.wake, Chunk(w.queue)))
    ensures WakeUps(cfg.wake, Chunk(w.queue)) <= WakeUps(cfg.wake, PW.Outstanding(w.queue))
  {
    PW.WriteTakesFrontChunk(w.queue, cfg.maxPending);
    PW.FrontChunkIsPrefix(w.queue, cfg.maxPending);
    WakeUpsSplit(cfg.wake, PW.Outstanding(w.queue), w.queue.writer.count);
    WakeUpsConcat(cfg.wake, w.delivered, Chunk(w.queue));
  }

  lemma WriteBalance(cfg: Config, w: World, step: Step)
    requires Inv(cfg, w) && Balanced(cfg, w) && w.lock.running && step.DrainWrite? && Enabled(w, step)
    requires w.consumed <= WakeUps(cfg.wake, w.delivered)
    ensures Balanced(cfg, Apply(cfg, w, step)) <==> Fair(cfg, w, step)
  {
    WriteLive(cfg, w, step.ok);
    if !step.ok && w.queue.writer.wakeups > 0 {
      WL.RunOne(w.lock, WL.Dec(PW.GiveBack(cfg.wake, w.queue), WL.NO_START));
    }
  }

  lemma WriteDiscipline(cfg: Config, w: World, step: Step)
    requires Disciplined(cfg, w) && Current(w) && step.DrainWrite? && Enabled(w, step)
    ensures Disciplined(cfg, Apply(cfg, w, step)) && Current(Apply(cfg, w, step))
  {
    var n := w.queue.writer.count;
    if step.ok && n <= |w.queue.pending[0].events| {
      DeliveryKeepsDiscipline(cfg, w, w.queue.pending[0].events[..n]);
    }
    if !step.ok && w.queue.writer.wakeups > 0 {
      WL.RunOne(w.lock, WL.Dec(PW.GiveBack(cfg.wake, w.queue), WL.NO_START));
    }
  }

  lemma CreateBalance(cfg: Config, w: World, step: Step)
    requires Good(cfg, w) && step.CreateToken? && Enabled(w, step)
    ensures Balanced(cfg, Apply(cfg, w, step)) && !LogsOverdraw(cfg, w, step)
    ensures Disciplined(cfg, Apply(cfg, w, step)) && Current(Apply(cfg, w, step))
  {
    var token := Token(step.amount, step.now);
    LockOpsAre(cfg, w, step);
    SumTokensConcat(w.tokens, [token]);
    assert [token][1..] == [];
  }

  lemma TokenIsHeld(cfg: Config, w: World, i: nat)
    requires Good(cfg, w) && i < |w.tokens|
    ensures w.tokens[i].amount <= w.lock.refCount
    ensures SumTokens(w.tokens) == w.tokens[i].amount + SumTokens(w.tokens[..i] + w.tokens[i + 1..])
  {
    DisciplinedBound(cfg, w);
    SumWithoutToken(w.tokens, i);
  }

  lemma ReleaseBalance(cfg: Config, w: World, step: Step)
    requires Good(cfg, w) && step.ReleaseToken? && Enabled(w, step)
    ensures Balanced(cfg, Apply(cfg, w, step)) && !LogsOverdraw(cfg, w, step)
    ensures Disciplined(cfg, Apply(cfg, w, step)) && Current(Apply(cfg, w, step))
  {
    TokenIsHeld(cfg, w, step.i);
    LockOpsAre(cfg, w, step);
  }

  lemma ReaderBalance(cfg: Config, w: World, step: Step)
    requires Good(cfg, w) && (step.WakeCheck? || step.WakeRead? || step.WakeReadFails?) && Enabled(w, step)
    ensures Balanced(cfg, Apply(cfg, w, step)) <==> Fair(cfg, w, step)
    ensures Fair(cfg, w, step) ==> Disciplined(cfg, Apply(cfg, w, step)) && Current(Apply(cfg, w, step))
    ensures !LogsOverdraw(cfg, w, step)
  {
    DisciplinedBound(cfg, w);
    match step
    case WakeCheck(now, resetNow) =>
      if WL.DidTimeout(w.lock, now, cfg.timeout) {
        WL.RunOne(w.lock, WL.Reset(resetNow));
      }
    case WakeRead => WL.RunOne(w.lock, WL.Dec(w.acks[0], WL.NO_START));
    case WakeReadFails =>
  }

  lemma DrainBalance(cfg: Config, w: World, step: Step)
    requires Good(cfg, w) && Enabled(w, step) && (step.DrainBegin? || step.DrainEnd?)
    ensures Balanced(cfg, Apply(cfg, w, step)) && Disciplined(cfg, Apply(cfg, w, step)) && Current(Apply(cfg, w, step))
  {
    if step.DrainEnd? {
      PW.EndWriteRemovesChunk(w.queue, cfg.maxPending);
    }
  }

  lemma FrameworkBalance(cfg: Config, w: World, step: Step)
    requires Good(cfg, w) && Enabled(w, step) && Covered(cfg, w, step) && (step.FrameworkReads? || step.FrameworkAcks?)
    ensures Balanced(cfg, Apply(cfg, w, step)) && Disciplined(cfg, Apply(cfg, w, step)) && Current(Apply(cfg, w, step))
  {
    match step
    case FrameworkReads(n) =>
      var d := w.delivered[..w.read + n];
      assert d[..w.read] == w.delivered[..w.read];
      WakeUpsSplit(cfg.wake, d, w.read);
    case FrameworkAcks(n) =>
      SumConcat(w.acks, [n]);
      assert [n][1..] == [];
  }

  /** Exactly when one step keeps the balance, and who can log the error: a failed write at most. */
  lemma StepBalance(cfg: Config, w: World, step: Step)
    requires Good(cfg, w) && Enabled(w, step) && Covered(cfg, w, step)
    ensures Balanced(cfg, Apply(cfg, w, step)) <==> Fair(cfg, w, step)
    ensures Fair(cfg, w, step) ==> Good(cfg, Apply(cfg, w, step))
    ensures LogsOverdraw(cfg, w, step) ==> step == DrainWrite(false)
  {
    StepKeepsInv(cfg, w, step);
    match step
    case Post(_, _, _, _, _, _) =>
      PostBalance(cfg, w, step);
      PostDiscipline(cfg, w, step);
    case DrainWrite(_) =>
      DisciplinedBound(cfg, w);
      WriteBalance(cfg, w, step);
      WriteDiscipline(cfg, w, step);
    case CreateToken(_, _) => CreateBalance(cfg, w, step);
    case ReleaseToken(_) => ReleaseBalance(cfg, w, step);
    case WakeCheck(_, _) => ReaderBalance(cfg, w, step);
    case WakeRead => ReaderBalance(cfg, w, step);
    case WakeReadFails => ReaderBalance(cfg, w, step);
    case DrainBegin(_) => DrainBalance(cfg, w, step);
    case DrainEnd => DrainBalance(cfg, w, step);
    case _ => FrameworkBalance(cfg, w, step);
  }

  // ---- Over runs ----

  lemma {:induction false} FairRunsStayGood(cfg: Config, states: seq<World>, steps: seq<Step>, i: nat)
    requires IsRun(cfg, states, steps) && Good(cfg, states[0]) && i < |states|
    requires forall k | 0 <= k < i :: Covered(cfg, states[k], steps[k])
    requires (forall k | 0 <= k < i :: Fair(cfg, states[k], steps[k])) || (forall k | 0 <= k <= i :: Balanced(cfg, states[k]))
    ensures Good(cfg, states[i])
  {
    if i > 0 {
      FairRunsStayGood(cfg, states, steps, i - 1);
      StepBalance(cfg, states[i - 1], steps[i - 1]);
    }
  }

  /** Conservation: over every run of covered steps the count stays balanced in all states exactly when
      all steps are fair; and then nothing but a failed write can log the error. */
  lemma ConservationOverRuns(cfg: Config, states: seq<World>, steps: seq<Step>)
    requires IsRun(cfg, states, steps) && Good(cfg, states[0])
    requires forall k | 0 <= k < |steps| :: Covered(cfg, states[k], steps[k])
    ensures (forall k | 0 <= k < |states| :: Balanced(cfg, states[k]))
       <==> (forall k | 0 <= k < |steps| :: Fair(cfg, states[k], steps[k]))
    ensures (forall k | 0 <= k < |steps| :: Fair(cfg, states[k], steps[k])) ==>
              forall k | 0 <= k < |steps| && steps[k] != DrainWrite(false) :: !LogsOverdraw(cfg, states[k], steps[k])
  {
    if forall k | 0 <= k < |steps| :: Fair(cfg, states[k], steps[k]) {
      forall k | 0 <= k < |states|
        ensures Balanced(cfg, states[k])
      {
        FairRunsStayGood(cfg, states, steps, k);
      }
      forall k | 0 <= k < |steps| && steps[k] != DrainWrite(false)
        ensures !LogsOverdraw(cfg, states[k], steps[k])
      {
        FairRunsStayGood(cfg, states, steps, k);
        StepBalance(cfg, states[k], steps[k]);
      }
    }
    if forall k | 0 <= k < |states| :: Balanced(cfg, states[k]) {
      forall k | 0 <= k < |steps|
        ensures Fair(cfg, states[k], steps[k])
      {
        FairRunsStayGood(cfg, states, steps, k);
        assert Balanced(cfg, states[k + 1]);
        StepBalance(cfg, states[k], steps[k]);
      }
    }
  }

  /** A post whose count is that of its events, made with a locked wakelock whenever that count is
      positive, is fair exactly when no wake-up event is in the dropped tail. */
  lemma CountedPostIsFair(cfg: Config, w: World, step: Step)
    requires step.Post? && Enabled(w, step)
    requires step.wakeups == WakeUps(cfg.wake, step.events) && (step.wakeups > 0 ==> step.token.Some?)
    ensures var tail := step.events[PW.Direct(w.queue, step.events, step.available, step.writeOk)..];
            Fair(cfg, w, step) <==> PW.TailFits(w.queue, cfg.maxPending, tail) || WakeUps(cfg.wake, tail) == 0
    ensures !Drops(cfg, w, step) ==> Fair(cfg, w, step)
  {
    var n := PW.Direct(w.queue, step.events, step.available, step.writeOk);
    WakeUpsSplit(cfg.wake, step.events, n);
    assert step.events[..n] + step.events[n..] == step.events;
    assert step.events[..n] + [] == step.events[..n];
  }

  /** When a failed write is fair: always for a chunk that is not the last of its list, whose wake-up events
      are counted anew; for the last chunk exactly when the count kept for the whole batch, as far as it is still
      held, is that of the events left. */
  lemma FailedWriteIsFair(cfg: Config, w: World)
    requires Good(cfg, w) && Enabled(w, DrainWrite(false))
    ensures var front := w.queue.pending[0];
            && (front.wakeups == 0 ==> (Fair(cfg, w, DrainWrite(false)) <==> WakeUps(cfg.wake, Chunk(w.queue)) == 0))
            && (front.wakeups > 0 && |front.events| > w.queue.writer.quantum ==> Fair(cfg, w, DrainWrite(false)))
            && (front.wakeups > 0 && |front.events| <= w.queue.writer.quantum ==>
                  (Fair(cfg, w, DrainWrite(false)) <==>
                     front.wakeups == WakeUps(cfg.wake, front.events)
                     || (front.wakeups > w.lock.refCount && w.lock.refCount == WakeUps(cfg.wake, front.events))))
  {
    var front := w.queue.pending[0].events;
    WriteLive(cfg, w, false);
    DisciplinedBound(cfg, w);
    if |front| <= w.queue.writer.quantum {
      assert Chunk(w.queue) == front;
    } else {
      assert Chunk(w.queue) == front[..w.queue.writer.quantum];
    }
  }

  /** Conservation as promised: no dropped write, no overflow, no timeout, no stop. */
  lemma ConservationWithoutDrops(cfg: Config, states: seq<World>, steps: seq<Step>)
    requires IsRun(cfg, states, steps) && Good(cfg, states[0])
    requires forall k | 0 <= k < |steps| :: Covered(cfg, states[k], steps[k]) && !Drops(cfg, states[k], steps[k])
    requires forall k | 0 <= k < |steps| && steps[k].Post? ::
               steps[k].wakeups == WakeUps(cfg.wake, steps[k].events) && (steps[k].wakeups > 0 ==> steps[k].token.Some?)
    requires forall k | 0 <= k < |steps| && steps[k].DrainWrite? :: steps[k].ok
    requires forall k | 0 <= k < |steps| && steps[k].WakeCheck? :: !WL.DidTimeout(states[k].lock, steps[k].now, cfg.timeout)
    ensures forall k | 0 <= k < |states| :: Balanced(cfg, states[k])
    ensures forall k | 0 <= k < |steps| :: !LogsOverdraw(cfg, states[k], steps[k])
  {
    forall k | 0 <= k < |steps|
      ensures Fair(cfg, states[k], steps[k])
    {
      if steps[k].Post? {
        CountedPostIsFair(cfg, states[k], steps[k]);
      }
    }
    ConservationOverRuns(cfg, states, steps);
  }

  /** The proxy just after its first initialisation is a good start for a run. */
  lemma FirstInitIsGood(cfg: Config, now: int)
    requires 0 <= now
    ensures Enabled(FRESH, Init(now)) && Good(cfg, Apply(cfg, FRESH, Init(now)))
  {
    StepKeepsInv(cfg, FRESH, Init(now));
    WL.RunTwo(FRESH.lock, WL.Reset(now), WL.SetRunning(true));
  }

  // ---- Two drops that do not give back what they took ----

  const WAKING: Event := Event(0x100_0001, 4, 0.0, 0.0, 0)
  const PLAIN: Event := Event(0x100_0002, 4, 0.0, 0.0, 0)
  const WAKE: set<int32> := {WAKING.sensorHandle}
  const NO_ROOM: Config := Config(0, 1000, WAKE)
  const CFG: Config := Config(10, 1000, WAKE)

  lemma CountWaking()
    ensures WakeUps(WAKE, [WAKING]) == 1 && WakeUps(WAKE, [WAKING, WAKING]) == 2 && WakeUps(WAKE, [PLAIN]) == 0
  {
    assert [WAKING, WAKING][1..] == [WAKING] && [WAKING][1..] == [] && [PLAIN][1..] == [];
  }

  /** Initialised, with one live scoped wakelock. */
  const HOLDING: World :=
    FRESH.(lock := WL.Lock(true, 1, 0, 0, [WL.AcquireCall]), tokens := [Token(1, 0)])

  lemma HoldingIsReached(cfg: Config)
    ensures Reachable(cfg, HOLDING) && Good(cfg, HOLDING)
  {
    FreshIsReachable(cfg);
    FirstInitIsGood(cfg, 0);
    ReachOneMore(cfg, FRESH, Init(0));
    WL.RunTwo(FRESH.lock, WL.Reset(0), WL.SetRunning(true));
    var started := Apply(cfg, FRESH, Init(0));
    assert started == FRESH.(lock := WL.Lock(true, 0, 0, 0, []));
    ReachOneMore(cfg, started, CreateToken(1, 0));
    StepBalance(cfg, started, CreateToken(1, 0));
    WL.RunOne(started.lock, WL.Inc(1, 0));
    assert Apply(cfg, started, CreateToken(1, 0)) == HOLDING;
  }

  /** The post of `events` with that wakelock to a message queue that has no room, and the wakelock's release. */
  lemma PostAndRelease(cfg: Config, events: seq<Event>, wakeups: nat) returns (posted: World, released: World)
    ensures var post := Post(events, wakeups, Some(0), 0, true, 0);
            && Enabled(HOLDING, post) && posted == Apply(cfg, HOLDING, post)
            && Enabled(posted, ReleaseToken(0)) && released == Apply(cfg, posted, ReleaseToken(0))
    ensures Reachable(cfg, posted) && Reachable(cfg, released)
    ensures posted.lock == WL.Lock(true, 1 + wakeups, 0, 0, [WL.AcquireCall])
    ensures released.tokens == [] && released.lock.refCount == wakeups
    ensures released.queue == posted.queue && released.delivered == posted.delivered && released.consumed == 0
  {
    var post := Post(events, wakeups, Some(0), 0, true, 0);
    HoldingIsReached(cfg);
    ReachOneMore(cfg, HOLDING, post);
    posted := Apply(cfg, HOLDING, post);
    WL.RunOne(HOLDING.lock, WL.Inc(wakeups, 0));
    ReachOneMore(cfg, posted, ReleaseToken(0));
    released := Apply(cfg, posted, ReleaseToken(0));
    WL.RunOne(posted.lock, WL.Dec(1, 0));
  }

  /** An overflowing tail: in a run the proxy can make, a counted post under a live wakelock is not fair, and once
      the wakelock is gone one reference is left that no token and no event accounts for. */
  lemma OverflowLeaks()
    ensures var post := Post([WAKING], 1, Some(0), 0, true, 0);
            && Reachable(NO_ROOM, HOLDING) && Good(NO_ROOM, HOLDING)
            && Enabled(HOLDING, post) && Covered(NO_ROOM, HOLDING, post) && !Fair(NO_ROOM, HOLDING, post)
    ensures exists w :: Reachable(NO_ROOM, w) && w.lock.refCount == 1 && w.tokens == [] && Live(NO_ROOM, w) == 0 && w.consumed == 0
  {
    HoldingIsReached(NO_ROOM);
    CountWaking();
    assert [WAKING][0..] == [WAKING];
    var _, w := PostAndRelease(NO_ROOM, [WAKING], 1);
    assert Live(NO_ROOM, w) == 0;
  }

  /** `pending` wake-up events left of one batch of two, all others delivered, nothing acknowledged. */
  ghost predicate LeftOfTwo(w: World, pending: seq<Event>) {
    && Good(CFG, w) && w.queue.pending == [PW.Batch(pending, 2)] && w.queue.writer == PW.Idle
    && w.lock.refCount == 2 && w.tokens == [] && w.consumed == 0
  }

  lemma FilledQueue() returns (w: World)
    ensures Reachable(CFG, w) && LeftOfTwo(w, [WAKING, WAKING]) && w.delivered == []
  {
    var events := [WAKING, WAKING];
    var post := Post(events, 2, Some(0), 0, true, 0);
    HoldingIsReached(CFG);
    CountWaking();
    assert events[0..] == events;
    CountedPostIsFair(CFG, HOLDING, post);
    StepBalance(CFG, HOLDING, post);
    var posted;
    posted, w := PostAndRelease(CFG, events, 2);
    StepBalance(CFG, posted, ReleaseToken(0));
  }

  lemma FairStep(cfg: Config, w: World, step: Step) returns (w': World)
    requires Reachable(cfg, w) && Good(cfg, w) && Enabled(w, step) && Covered(cfg, w, step) && Fair(cfg, w, step)
    ensures w' == Apply(cfg, w, step) && Reachable(cfg, w') && Good(cfg, w')
  {
    w' := Apply(cfg, w, step);
    ReachOneMore(cfg, w, step);
    StepBalance(cfg, w, step);
  }

  lemma OneOfTwo()
    ensures [WAKING, WAKING][..1] == [WAKING] && [WAKING, WAKING][1..] == [WAKING]
  {
  }

  lemma BeginOneOfTwo(w: World) returns (w': World)
    requires Reachable(CFG, w) && LeftOfTwo(w, [WAKING, WAKING])
    ensures Reachable(CFG, w') && Good(CFG, w') && w' == w.(queue := w.queue.(writer := PW.Writing(1, 1, 2)))
  {
    w' := FairStep(CFG, w, DrainBegin(1));
    LockOpsAre(CFG, w, DrainBegin(1));
  }

  lemma FinishOneOfTwo(w: World) returns (w': World)
    requires Reachable(CFG, w) && Good(CFG, w)
    requires w.queue.pending == [PW.Batch([WAKING, WAKING], 2)] && w.queue.writer == PW.Writing(1, 1, 2)
    ensures Reachable(CFG, w') && Good(CFG, w') && w'.queue == w.queue.(writer := PW.Written(1, 1))
    ensures w'.lock == w.lock && w'.tokens == w.tokens && w'.consumed == w.consumed && w'.delivered == w.delivered + [WAKING]
  {
    w' := FairStep(CFG, w, DrainWrite(true));
    LockOpsAre(CFG, w, DrainWrite(true));
    OneOfTwo();
  }

  lemma EndOneOfTwo(w: World) returns (w': World)
    requires Reachable(CFG, w) && Good(CFG, w)
    requires w.queue.pending == [PW.Batch([WAKING, WAKING], 2)] && w.queue.writer == PW.Written(1, 1)
    ensures Reachable(CFG, w') && Good(CFG, w') && w'.queue.pending == [PW.Batch([WAKING], 2)] && w'.queue.writer == PW.Idle
    ensures w'.lock == w.lock && w'.tokens == w.tokens && w'.consumed == w.consumed && w'.delivered == w.delivered
  {
    w' := FairStep(CFG, w, DrainEnd);
    LockOpsAre(CFG, w, DrainEnd);
    OneOfTwo();
  }

  lemma WriteOneOfTwo(w: World) returns (w': World)
    requires Reachable(CFG, w) && LeftOfTwo(w, [WAKING, WAKING])
    ensures Reachable(CFG, w') && LeftOfTwo(w', [WAKING]) && w'.delivered == w.delivered + [WAKING]
  {
    var begun := BeginOneOfTwo(w);
    var written := FinishOneOfTwo(begun);
    w' := EndOneOfTwo(written);
  }

  /** A queued batch keeps the count of all its events: when its last chunk cannot be written, the events
      of the chunks already written are given back too. */
  lemma LastChunkGivesBackWholeBatch(w: World)
    requires LeftOfTwo(w, [WAKING]) && w.delivered == [WAKING]
    ensures Enabled(w, DrainBegin(1))
    ensures var w1 := Apply(CFG, w, DrainBegin(1));
            && Good(CFG, w1) && Enabled(w1, DrainWrite(false)) && !Fair(CFG, w1, DrainWrite(false))
            && var w2 := Apply(CFG, w1, DrainWrite(false));
               w2.lock.refCount == 0 && WakeUps(CFG.wake, w2.delivered) == 1 && w2.consumed == 0
  {
    var w1 := Apply(CFG, w, DrainBegin(1));
    StepBalance(CFG, w, DrainBegin(1));
    CountWaking();
    assert [WAKING][..1] == [WAKING];
    assert PW.GiveBack(CFG.wake, w1.queue) == 2;
    WL.RunOne(w1.lock, WL.Dec(2, WL.NO_START));
  }

  /** Such a state is reached by a run: post two wake-up events under a live wakelock to a full message queue,
      release the wakelock, and write one of them. */
  lemma LeftOfTwoIsReached()
    ensures exists w :: Reachable(CFG, w) && LeftOfTwo(w, [WAKING]) && w.delivered == [WAKING]
  {
    var filled := FilledQueue();
    var w := WriteOneOfTwo(filled);
    assert [] + [WAKING] == [WAKING];
  }

  // ---- The system's lock in runs of the whole proxy ----

  /** A post without wake-up events, under a live wakelock, that finds the count at zero. */
  predicate PostsNothingLocked(w: World, step: Step) {
    step.Post? && step.token.Some? && step.wakeups == 0 && w.lock.running && w.lock.refCount == 0
  }

  lemma StepKeepsAgreement(cfg: Config, w: World, step: Step)
    requires WL.Agrees(w.lock) && Enabled(w, step)
    ensures WL.Agrees(Apply(cfg, w, step).lock) <==> !PostsNothingLocked(w, step)
  {
    var ops := LockOps(cfg, w, step);
    LockOpsAre(cfg, w, step);
    if |ops| > 0 {
      WL.OpKeepsAgreement(w.lock, ops[0]);
    }
    if |ops| == 2 {
      WL.OpKeepsAgreement(WL.ApplyOp(w.lock, ops[0]), ops[1]);
    }
  }

  lemma {:induction false} AgreementReaches(cfg: Config, states: seq<World>, steps: seq<Step>, i: nat)
    requires IsRun(cfg, states, steps) && states[0] == FRESH && i < |states|
    requires forall k | 0 <= k < i :: !PostsNothingLocked(states[k], steps[k])
    ensures WL.Agrees(states[i].lock)
  {
    if i > 0 {
      AgreementReaches(cfg, states, steps, i - 1);
      StepKeepsAgreement(cfg, states[i - 1], steps[i - 1]);
    }
  }

  /** In every run, stops, timeouts and re-initialisations included: the system's lock is held exactly while the
      count is positive, in all states, exactly when no locked post without wake-up events finds the count at zero. */
  lemma LockAgreesInRuns(cfg: Config, states: seq<World>, steps: seq<Step>)
    requires IsRun(cfg, states, steps) && states[0] == FRESH
    ensures (forall i | 0 <= i < |states| :: WL.Agrees(states[i].lock))
       <==> (forall k | 0 <= k < |steps| :: !PostsNothingLocked(states[k], steps[k]))
  {
    if forall k | 0 <= k < |steps| :: !PostsNothingLocked(states[k], steps[k]) {
      forall i | 0 <= i < |states|
        ensures WL.Agrees(states[i].lock)
      {
        AgreementReaches(cfg, states, steps, i);
      }
    }
    if forall i | 0 <= i < |states| :: WL.Agrees(states[i].lock) {
      forall k | 0 <= k < |steps|
        ensures !PostsNothingLocked(states[k], steps[k])
      {
        assert WL.Agrees(states[k + 1].lock);
        StepKeepsAgreement(cfg, states[k], steps[k]);
      }
    }
  }

  /** Holding the wakelock, the timeout strikes. */
  lemma TimeoutStrikes() returns (w: World)
    ensures Reachable(CFG, w) && w.tokens == [Token(1, 0)] && w.clock == 1001
    ensures w.lock == WL.Lock(true, 0, 0, 1001, [WL.AcquireCall, WL.ReleaseCall])
  {
    HoldingIsReached(CFG);
    ReachOneMore(CFG, HOLDING, WakeCheck(1001, 1001));
    LockOpsAre(CFG, HOLDING, WakeCheck(1001, 1001));
    w := Apply(CFG, HOLDING, WakeCheck(1001, 1001));
  }

  /** Then a batch without wake-up events is posted with it. */
  lemma PostAfterTimeout(w: World) returns (posted: World)
    requires Reachable(CFG, w) && w.tokens == [Token(1, 0)] && w.clock == 1001
    requires w.lock == WL.Lock(true, 0, 0, 1001, [WL.AcquireCall, WL.ReleaseCall])
    ensures Reachable(CFG, posted) && posted.tokens == [Token(1, 0)]
    ensures posted.lock == WL.Lock(true, 0, 1001, 1001, [WL.AcquireCall, WL.ReleaseCall, WL.AcquireCall])
  {
    var post := Post([PLAIN], 0, Some(0), 1, true, 1001);
    ReachOneMore(CFG, w, post);
    LockOpsAre(CFG, w, post);
    posted := Apply(CFG, w, post);
  }

  /** It does happen: the timeout strikes between the creation of a scoped wakelock and the post made with it. When
      the wakelock is gone too, the system's lock is held for a count of zero. */
  lemma LockHeldForNothing()
    ensures exists w :: Reachable(CFG, w) && w.tokens == [] && w.lock.refCount == 0 && WL.Held(w.lock.calls)
  {
    var late := TimeoutStrikes();
    var posted := PostAfterTimeout(late);
    ReachOneMore(CFG, posted, ReleaseToken(0));
    LockOpsAre(CFG, posted, ReleaseToken(0));
    var w := Apply(CFG, posted, ReleaseToken(0));
    assert w.lock == posted.lock;
  }
}
