/** The shared, reference-counted wakelock of the proxy. */
module Wakelock {
  import opened Basics

  /** A call to the system's wakelock interface. */
  datatype Call = AcquireCall | ReleaseCall

  datatype Lock = Lock(running: bool, refCount: nat, timeoutStart: int, resetTime: int, calls: seq<Call>)

  /** The sentinel for "no start time": the decrement then counts as started at the last reset. */
  const NO_START: int := -1

  function Increment(w: Lock, delta: nat, now: int): Lock {
    if !w.running then w
    else w.(refCount := w.refCount + delta,
            timeoutStart := now,
            calls := if w.refCount == 0 then w.calls + [AcquireCall] else w.calls)
  }

  function Decrement(w: Lock, delta: nat, start: int): Lock {
    var started := if start == NO_START then w.resetTime else start;
    if !w.running || w.refCount == 0 || started < w.resetTime then w
    else
      var left := w.refCount - Min(w.refCount, delta);
      w.(refCount := left, calls := if left == 0 then w.calls + [ReleaseCall] else w.calls)
  }

  function ResetShared(w: Lock, now: int): Lock {
    Decrement(w, w.refCount, NO_START).(resetTime := now)
  }

  predicate DidTimeout(w: Lock, now: int, timeout: int) {
    now - w.timeoutStart > timeout
  }

  /** The decrement logs an error: more is given back than is held. */
  predicate Overdraws(w: Lock, delta: nat) {
    w.running && delta > w.refCount
  }

  // ---- Agreement of the count with the system's lock ----

  predicate Alternates(calls: seq<Call>) {
    forall i | 0 <= i < |calls| :: calls[i] == if i % 2 == 0 then AcquireCall else ReleaseCall
  }

  predicate Held(calls: seq<Call>) {
    calls != [] && calls[|calls| - 1] == AcquireCall
  }

  /** Calls strictly alternate, and the system's lock is held exactly while the count is positive. */
  predicate Agrees(w: Lock) {
    Alternates(w.calls) && (Held(w.calls) <==> w.refCount > 0)
  }

  datatype Op =
    | Inc(delta: nat, now: int)
    | Dec(delta: nat, start: int)
    | Reset(now: int)
    | SetRunning(run: bool)

  function ApplyOp(w: Lock, op: Op): Lock {
    match op
    case Inc(delta, now) => Increment(w, delta, now)
    case Dec(delta, start) => Decrement(w, delta, start)
    case Reset(now) => ResetShared(w, now)
    case SetRunning(run) => w.(running := run)
  }

  function RunOps(w: Lock, ops: seq<Op>): Lock
    decreases |ops|
  {
    if ops == [] then w else RunOps(ApplyOp(w, ops[0]), ops[1..])
  }

  lemma RunOne(w: Lock, op: Op)
    ensures RunOps(w, [op]) == ApplyOp(w, op)
  {
    assert [op][1..] == [];
  }

  lemma RunTwo(w: Lock, first: Op, second: Op)
    ensures RunOps(w, [first, second]) == ApplyOp(ApplyOp(w, first), second)
  {
    assert [first, second][1..] == [second];
    RunOne(ApplyOp(w, first), second);
  }

  /** An increment by zero that finds a running proxy with count zero: it acquires and counts nothing. */
  predicate AcquiresForNothing(w: Lock, op: Op) {
    op.Inc? && op.delta == 0 && w.running && w.refCount == 0
  }

  predicate NeverAcquiresForNothing(w: Lock, ops: seq<Op>)
    decreases |ops|
  {
    ops != [] ==> !AcquiresForNothing(w, ops[0]) && NeverAcquiresForNothing(ApplyOp(w, ops[0]), ops[1..])
  }

  predicate AgreesThroughout(w: Lock, ops: seq<Op>)
    decreases |ops|
  {
    Agrees(w) && (ops != [] ==> AgreesThroughout(ApplyOp(w, ops[0]), ops[1..]))
  }

  lemma AppendKeepsAlternation(calls: seq<Call>, call: Call)
    requires Alternates(calls)
    ensures Alternates(calls + [call]) <==> (Held(calls) <==> call == ReleaseCall)
  {
    var n := |calls|;
    assert n > 0 ==> calls[n - 1] == if (n - 1) % 2 == 0 then AcquireCall else ReleaseCall;
    assert (calls + [call])[n] == call;
  }

  lemma OpKeepsAgreement(w: Lock, op: Op)
    requires Agrees(w)
    ensures Agrees(ApplyOp(w, op)) <==> !AcquiresForNothing(w, op)
  {
    AppendKeepsAlternation(w.calls, AcquireCall);
    AppendKeepsAlternation(w.calls, ReleaseCall);
  }

  /** Over every run, stops and restarts included: count and lock agree in every state exactly when no
      increment by zero ever finds the count at zero on a running proxy. */
  lemma {:induction false} AgreementOverRuns(w: Lock, ops: seq<Op>)
    requires Agrees(w)
    ensures AgreesThroughout(w, ops) <==> NeverAcquiresForNothing(w, ops)
    decreases |ops|
  {
    if ops != [] {
      OpKeepsAgreement(w, ops[0]);
      if Agrees(ApplyOp(w, ops[0])) {
        AgreementOverRuns(ApplyOp(w, ops[0]), ops[1..]);
      }
    }
  }

  /** The reading the assertion in postEvents intends: all increments positive. */
  lemma {:induction false} PositiveIncrementsAgree(w: Lock, ops: seq<Op>)
    requires Agrees(w) && forall i | 0 <= i < |ops| && ops[i].Inc? :: ops[i].delta > 0
    ensures AgreesThroughout(w, ops) && Agrees(RunOps(w, ops))
    decreases |ops|
  {
    if ops != [] {
      OpKeepsAgreement(w, ops[0]);
      PositiveIncrementsAgree(ApplyOp(w, ops[0]), ops[1..]);
    }
  }

  /** The time of the last reset, or `since` when there is none. */
  function LastReset(ops: seq<Op>, since: int): int {
    if ops == [] then since else LastReset(ops[1..], if ops[0].Reset? then ops[0].now else since)
  }

  lemma {:induction false} StoppedLockIsInert(w: Lock, ops: seq<Op>)
    requires !w.running && SetRunning(true) !in ops
    ensures RunOps(w, ops) == w.(resetTime := LastReset(ops, w.resetTime))
    decreases |ops|
  {
    if ops != [] {
      assert SetRunning(true) !in ops[1..];
      StoppedLockIsInert(ApplyOp(w, ops[0]), ops[1..]);
    }
  }

  lemma {:induction false} RunOpsConcat(w: Lock, a: seq<Op>, b: seq<Op>)
    ensures RunOps(w, a + b) == RunOps(RunOps(w, a), b)
    decreases |a|
  {
    if a == [] {
      assert a + b == b;
    } else {
      assert (a + b)[1..] == a[1..] + b;
      RunOpsConcat(ApplyOp(w, a[0]), a[1..], b);
    }
  }

  /** From a stop to the next start, whatever is posted, acknowledged, released or reset meanwhile: the count, the
      system's lock and the timeout come out as they went in, and only the reset time has moved. */
  lemma StopKeepsReferences(w: Lock, ops: seq<Op>)
    requires SetRunning(true) !in ops
    ensures RunOps(w, [SetRunning(false)] + ops + [SetRunning(true)]) == w.(running := true, resetTime := LastReset(ops, w.resetTime))
  {
    var stopped := w.(running := false);
    RunOpsConcat(w, [SetRunning(false)] + ops, [SetRunning(true)]);
    RunOpsConcat(w, [SetRunning(false)], ops);
    RunOne(w, SetRunning(false));
    StoppedLockIsInert(stopped, ops);
    RunOne(RunOps(stopped, ops), SetRunning(true));
  }

  // ---- Stale tokens ----

  /** However the lock is used, a decrement whose start precedes the last reset is without effect, and stays so
      through every later reset that is made after that start too. */
  lemma {:induction false} StaleStartsNeverCount(w: Lock, ops: seq<Op>, delta: nat, start: int)
    requires 0 <= start < w.resetTime
    requires forall i | 0 <= i < |ops| && ops[i].Reset? :: start < ops[i].now
    ensures var later := RunOps(w, ops);
            start < later.resetTime && Decrement(later, delta, start) == later
    ensures (forall i | 0 <= i < |ops| :: !ops[i].Reset?) ==> RunOps(w, ops).resetTime == w.resetTime
    decreases |ops|
  {
    if ops != [] {
      var rest := ops[1..];
      assert forall i | 0 <= i < |rest| :: rest[i] == ops[i + 1];
      StaleStartsNeverCount(ApplyOp(w, ops[0]), rest, delta, start);
    }
  }

  // ---- The timeout ----

  /** The time of the last increment that found the proxy running, or `since` when there is none. */
  function LastIncrement(w: Lock, ops: seq<Op>, since: int): int
    decreases |ops|
  {
    if ops == [] then since
    else
      LastIncrement(ApplyOp(w, ops[0]), ops[1..], if ops[0].Inc? && w.running then ops[0].now else since)
  }

  lemma {:induction false} TimeoutRunsFromLastIncrement(w: Lock, ops: seq<Op>)
    ensures RunOps(w, ops).timeoutStart == LastIncrement(w, ops, w.timeoutStart)
    decreases |ops|
  {
    if ops != [] {
      TimeoutRunsFromLastIncrement(ApplyOp(w, ops[0]), ops[1..]);
    }
  }

  /** One pass of the wakelock thread that starts at `now`, after any run, with threads running and a positive
      count, as it waits for: more than the timeout after the last increment, the reset leaves count zero and the
      lock released; otherwise the time left to wait is between zero and the timeout. */
  lemma TimeoutReleases(w: Lock, ops: seq<Op>, now: int, resetNow: int, timeout: int)
    requires RunOps(w, ops).running && RunOps(w, ops).refCount > 0
    ensures var u := RunOps(w, ops);
            var idle := now - LastIncrement(w, ops, w.timeoutStart);
            && (DidTimeout(u, now, timeout) <==> idle > timeout)
            && (idle > timeout ==> ResetShared(u, resetNow).refCount == 0 && !Held(ResetShared(u, resetNow).calls))
            && (idle <= timeout && idle >= 0 ==> 0 <= timeout - (now - u.timeoutStart) <= timeout)
  {
    TimeoutRunsFromLastIncrement(w, ops);
  }
}
