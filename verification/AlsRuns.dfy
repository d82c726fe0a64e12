/** What the ambient-light filter keeps over runs of events: its rate, its refreshes and its cached value. */
module AlsRuns {
  import opened AlsModel

  function Run(env: Env, st: State, ins: seq<Input>): State
    requires Shape(env.conf)
    decreases |ins|
  {
    if ins == [] then st else Run(env, Process(env, st, ins[0]).st, ins[1..])
  }

  /** The times of the events that pass the rate filter. */
  function PassTimes(env: Env, st: State, ins: seq<Input>): seq<int>
    requires Shape(env.conf)
    decreases |ins|
  {
    if ins == [] then []
    else
      var rest := PassTimes(env, Process(env, st, ins[0]).st, ins[1..]);
      if Tick(st, ins[0].now, ins[0].brightness).passes then [ins[0].now] + rest else rest
  }

  /** The times at which the timer raises the force flag. */
  function RefreshTimes(env: Env, st: State, ins: seq<Input>): seq<int>
    requires Shape(env.conf)
    decreases |ins|
  {
    if ins == [] then []
    else
      var rest := RefreshTimes(env, Process(env, st, ins[0]).st, ins[1..]);
      if RaisesForce(st, ins[0].now, ins[0].brightness) then [ins[0].now] + rest else rest
  }

  /** The boot clock is never zero, which the code uses for "no update yet". */
  predicate ClockStarted(ins: seq<Input>) {
    forall i | 0 <= i < |ins| :: ins[i].now != 0
  }

  /** What one event leaves of the times the filter remembers. */
  lemma TimesAfter(env: Env, st: State, inp: Input)
    requires Shape(env.conf)
    ensures var t := Tick(st, inp.now, inp.brightness); var st' := Process(env, st, inp).st;
            st'.lastUpdate == t.st.lastUpdate && st'.lastForced == t.st.lastForced
  {
  }

  lemma {:induction false} PassesAreSpaced(env: Env, st: State, ins: seq<Input>)
    requires Shape(env.conf) && ClockStarted(ins)
    ensures var p := PassTimes(env, st, ins);
            && (p != [] && st.lastUpdate != 0 ==> p[0] - st.lastUpdate >= RATE_NS)
            && forall k | 0 <= k < |p| - 1 :: p[k + 1] - p[k] >= RATE_NS
    decreases |ins|
  {
    if ins != [] {
      TimesAfter(env, st, ins[0]);
      PassesAreSpaced(env, Process(env, st, ins[0]).st, ins[1..]);
    }
  }

  lemma {:induction false} RefreshesAreSpaced(env: Env, st: State, ins: seq<Input>)
    requires Shape(env.conf) && ClockStarted(ins)
    ensures var p := RefreshTimes(env, st, ins);
            && (p != [] && st.lastUpdate != 0 ==> p[0] - st.lastForced > REFRESH_NS)
            && forall k | 0 <= k < |p| - 1 :: p[k + 1] - p[k] > REFRESH_NS
    decreases |ins|
  {
    if ins != [] {
      TimesAfter(env, st, ins[0]);
      RefreshesAreSpaced(env, Process(env, st, ins[0]).st, ins[1..]);
    }
  }

  lemma {:induction false} SpacingAddsUp(times: seq<int>, gap: nat, i: nat, j: nat)
    requires i <= j < |times| && forall k | 0 <= k < |times| - 1 :: times[k + 1] - times[k] >= gap
    ensures times[j] - times[i] >= (j - i) * gap
    decreases j - i
  {
    if i < j {
      SpacingAddsUp(times, gap, i, j - 1);
      assert (j - i) * gap == (j - 1 - i) * gap + gap;
    }
  }

  /** The rate limit over runs: events number i to j that pass within a window of `window` nanoseconds are
      at most one more than the whole tenths of a second in the window. */
  lemma RateIsLimited(env: Env, st: State, ins: seq<Input>, i: nat, j: nat, window: nat)
    requires Shape(env.conf) && ClockStarted(ins)
    requires var p := PassTimes(env, st, ins); i <= j < |p| && p[j] - p[i] <= window
    ensures j - i + 1 <= window / RATE_NS + 1
  {
    PassesAreSpaced(env, st, ins);
    SpacingAddsUp(PassTimes(env, st, ins), RATE_NS, i, j);
  }

  /** Two refreshes that the timer forces are more than three seconds apart for each step between them. */
  lemma RefreshIsLimited(env: Env, st: State, ins: seq<Input>, i: nat, j: nat)
    requires Shape(env.conf) && ClockStarted(ins) && i < j < |RefreshTimes(env, st, ins)|
    ensures var p := RefreshTimes(env, st, ins); p[j] - p[i] > (j - i) * REFRESH_NS
  {
    RefreshesAreSpaced(env, st, ins);
    SpacingAddsUp(RefreshTimes(env, st, ins), REFRESH_NS + 1, i, j);
    assert (j - i) * (REFRESH_NS + 1) == (j - i) * REFRESH_NS + (j - i);
  }

  /** Events no faster than the limit all pass. */
  lemma {:induction false} SlowEventsAllPass(env: Env, st: State, ins: seq<Input>)
    requires Shape(env.conf) && ClockStarted(ins)
    requires ins != [] && st.lastUpdate != 0 ==> ins[0].now - st.lastUpdate >= RATE_NS
    requires forall i | 0 <= i < |ins| - 1 :: ins[i + 1].now - ins[i].now >= RATE_NS
    ensures var p := PassTimes(env, st, ins); |p| == |ins| && forall i | 0 <= i < |ins| :: p[i] == ins[i].now
    decreases |ins|
  {
    if ins != [] {
      TimesAfter(env, st, ins[0]);
      SlowEventsAllPass(env, Process(env, st, ins[0]).st, ins[1..]);
    }
  }

  // ---- The force flag ----

  /** A screenshot was taken and used. */
  predicate Captured(env: Env, st: State, inp: Input)
    requires Shape(env.conf)
  {
    var o := Process(env, st, inp);
    o.kind == Recomputed || o.kind == KeptAfterCapture
  }

  /** After an event the flag is up exactly when it was up or the timer raised it, and no capture succeeded. */
  lemma ForceAfter(env: Env, st: State, inp: Input)
    requires Shape(env.conf)
    ensures Process(env, st, inp).st.force
       <==> (st.force || RaisesForce(st, inp.now, inp.brightness)) && !Captured(env, st, inp)
    ensures Tick(st, inp.now, inp.brightness).passes && (st.force || RaisesForce(st, inp.now, inp.brightness)) ==>
              (Captured(env, st, inp) <==> inp.capture.Some?)
  {
  }

  /** A capture succeeds somewhere in the run. */
  predicate EverCaptured(env: Env, st: State, ins: seq<Input>)
    requires Shape(env.conf)
    decreases |ins|
  {
    ins != [] && (Captured(env, st, ins[0]) || EverCaptured(env, Process(env, st, ins[0]).st, ins[1..]))
  }

  /** A raised flag survives rate drops and failed captures until a capture succeeds. */
  lemma {:induction false} ForceSurvives(env: Env, st: State, ins: seq<Input>)
    requires Shape(env.conf) && st.force && !EverCaptured(env, st, ins)
    ensures Run(env, st, ins).force
    decreases |ins|
  {
    if ins != [] {
      ForceAfter(env, st, ins[0]);
      ForceSurvives(env, Process(env, st, ins[0]).st, ins[1..]);
    }
  }

  // ---- The cached value ----

  /** Every event of the run leaves either marked as dropped, with its handle rewritten to zero, or with its
      own handle and the cached, non-negative corrected value. The sensor type never changes. */
  predicate OutputsAreCached(env: Env, st: State, ins: seq<Input>)
    requires Shape(env.conf)
    decreases |ins|
  {
    ins != [] ==>
      var inp := ins[0]; var o := Process(env, st, inp);
      && o.event.sensorType == inp.event.sensorType
      && (if o.kind == TooFast || o.kind == CaptureFailed
          then o.event.sensorHandle == 0 && o.st.lastCorrected == st.lastCorrected
          else o.event.sensorHandle == inp.event.sensorHandle && o.event.scalar == o.st.lastCorrected >= 0.0)
      && OutputsAreCached(env, o.st, ins[1..])
  }

  lemma {:induction false} OutputsOverRuns(env: Env, st: State, ins: seq<Input>)
    requires Shape(env.conf) && st.lastCorrected >= 0.0
    ensures OutputsAreCached(env, st, ins) && Run(env, st, ins).lastCorrected >= 0.0
    decreases |ins|
  {
    if ins != [] {
      OutputsOverRuns(env, Process(env, st, ins[0]).st, ins[1..]);
    }
  }

  /** The first event ever always asks for a screenshot, and until one succeeds so does every event that
      passes the rate filter. */
  lemma FirstEventsCapture(env: Env, ins: seq<Input>, next: Input)
    requires Shape(env.conf) && !EverCaptured(env, INITIAL, ins)
    requires Tick(Run(env, INITIAL, ins), next.now, next.brightness).passes
    ensures Captured(env, Run(env, INITIAL, ins), next) <==> next.capture.Some?
  {
    ForceSurvives(env, INITIAL, ins);
    ForceAfter(env, Run(env, INITIAL, ins), next);
  }
}
