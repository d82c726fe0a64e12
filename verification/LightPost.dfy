/** From the light sensor's event to the framework: the filter runs over the light events of a batch, in order, before
    the batch is written or queued. */
module LightPost {
  import opened Basics
  import opened SensorTypes
  import opened AreaCapture
  import opened Proxy
  import PW = PendingWrites
  import M = AlsModel
  import AR = AlsRuns
  import F = AlsCorrection
  import P = Pipeline

  /** What the filter reads beside an event: the time, the display's brightness and the screenshot's answer. */
  datatype Ambient = Ambient(now: int, brightness: real, capture: Option<Rgb>)

  predicate IsLight(event: Event) {
    event.sensorType == TYPE_QTI_WISE_LIGHT
  }

  function InputOf(event: Event, a: Ambient): M.Input {
    M.Input(event, a.now, a.brightness, a.capture)
  }

  /** The filter's state after the events, of which it sees the light ones. */
  function After(env: M.Env, st: M.State, events: seq<Event>, ambients: seq<Ambient>): M.State
    requires M.Shape(env.conf) && |ambients| == |events|
  {
    if events == [] then st
    else
      var n := |events| - 1;
      var before := After(env, st, events[..n], ambients[..n]);
      if IsLight(events[n]) then M.Process(env, before, InputOf(events[n], ambients[n])).st else before
  }

  /** Its answers; events of other sensors are no business of the filter. */
  function Answers(env: M.Env, st: M.State, events: seq<Event>, ambients: seq<Ambient>): (als: seq<Event>)
    requires M.Shape(env.conf) && |ambients| == |events|
    ensures |als| == |events|
  {
    if events == [] then []
    else
      var n := |events| - 1;
      var before := After(env, st, events[..n], ambients[..n]);
      Answers(env, st, events[..n], ambients[..n])
      + [if IsLight(events[n]) then M.Process(env, before, InputOf(events[n], ambients[n])).event else events[n]]
  }

  /** Event number `i` of the batch arrives as it should: a light event either dropped, with handle zero, or under its
      own handle with the value that the filter has cached by then; any other event untouched. */
  predicate ArrivesAs(env: M.Env, st: M.State, events: seq<Event>, ambients: seq<Ambient>, i: nat, arrived: Event)
    requires M.Shape(env.conf) && |ambients| == |events| && i < |events|
  {
    if events[i].sensorType == TYPE_QTI_WISE_LIGHT then
      && arrived.sensorType == events[i].sensorType && arrived.data2 == events[i].data2
      && arrived.dynamicHandle == events[i].dynamicHandle
      && (arrived.sensorHandle == 0
          || (arrived.sensorHandle == events[i].sensorHandle
              && arrived.scalar == After(env, st, events[..i + 1], ambients[..i + 1]).lastCorrected >= 0.0))
    else arrived == events[i]
  }

  lemma {:induction false} ValueStaysNonNegative(env: M.Env, st: M.State, events: seq<Event>, ambients: seq<Ambient>)
    requires M.Shape(env.conf) && |ambients| == |events| && st.lastCorrected >= 0.0
    ensures After(env, st, events, ambients).lastCorrected >= 0.0
  {
    if events != [] {
      var n := |events| - 1;
      ValueStaysNonNegative(env, st, events[..n], ambients[..n]);
      if IsLight(events[n]) {
        OneAnswer(env, After(env, st, events[..n], ambients[..n]), events[n], ambients[n]);
      }
    }
  }

  /** One event through the filter. */
  lemma OneAnswer(env: M.Env, st: M.State, event: Event, a: Ambient)
    requires M.Shape(env.conf) && st.lastCorrected >= 0.0
    ensures var o := M.Process(env, st, InputOf(event, a));
            && o.st.lastCorrected >= 0.0
            && o.event.sensorType == event.sensorType && o.event.data2 == event.data2 && o.event.dynamicHandle == event.dynamicHandle
            && (o.event.sensorHandle == 0
                || (o.event.sensorHandle == event.sensorHandle && o.event.scalar == o.st.lastCorrected))
  {
    AR.OutputsOverRuns(env, st, [InputOf(event, a)]);
  }

  lemma {:induction false} AnswerAt(env: M.Env, st: M.State, events: seq<Event>, ambients: seq<Ambient>, i: nat)
    requires M.Shape(env.conf) && |ambients| == |events| && i < |events|
    ensures var before := After(env, st, events[..i], ambients[..i]);
            Answers(env, st, events, ambients)[i]
              == if IsLight(events[i]) then M.Process(env, before, InputOf(events[i], ambients[i])).event else events[i]
  {
    var n := |events| - 1;
    if i < n {
      AnswerAt(env, st, events[..n], ambients[..n], i);
      assert events[..n][..i] == events[..i] && ambients[..n][..i] == ambients[..i];
    }
  }

  lemma AfterOneMore(env: M.Env, st: M.State, events: seq<Event>, ambients: seq<Ambient>, i: nat)
    requires M.Shape(env.conf) && |ambients| == |events| && i < |events| && IsLight(events[i])
    ensures After(env, st, events[..i + 1], ambients[..i + 1])
         == M.Process(env, After(env, st, events[..i], ambients[..i]), InputOf(events[i], ambients[i])).st
  {
    assert events[..i + 1][..i] == events[..i] && ambients[..i + 1][..i] == ambients[..i];
  }

  /** Every event of a corrected batch arrives as it should. */
  lemma CorrectedArrives(env: M.Env, st: M.State, events: seq<Event>, ambients: seq<Ambient>, i: nat)
    requires M.Shape(env.conf) && |ambients| == |events| && i < |events| && st.lastCorrected >= 0.0
    ensures ArrivesAs(env, st, events, ambients, i, Corrected(events, Answers(env, st, events, ambients))[i])
  {
    AnswerAt(env, st, events, ambients, i);
    if IsLight(events[i]) {
      AfterOneMore(env, st, events, ambients, i);
      ValueStaysNonNegative(env, st, events[..i], ambients[..i]);
      OneAnswer(env, After(env, st, events[..i], ambients[..i]), events[i], ambients[i]);
    }
  }

  /** The events of `part` are those of the batch from number `from` on, arriving as they should. */
  ghost predicate ArriveFrom(env: M.Env, st: M.State, events: seq<Event>, ambients: seq<Ambient>, from: nat, part: seq<Event>)
    requires M.Shape(env.conf) && |ambients| == |events|
  {
    from + |part| <= |events| && forall k | 0 <= k < |part| :: ArrivesAs(env, st, events, ambients, from + k, part[k])
  }

  lemma PartsArrive(env: M.Env, st: M.State, events: seq<Event>, ambients: seq<Ambient>, from: nat, part: seq<Event>)
    requires M.Shape(env.conf) && |ambients| == |events| && st.lastCorrected >= 0.0
    requires IsPartOf(part, events, Answers(env, st, events, ambients), from)
    ensures ArriveFrom(env, st, events, ambients, from, part)
  {
    forall k | 0 <= k < |part|
      ensures ArrivesAs(env, st, events, ambients, from + k, part[k])
    {
      CorrectedArrives(env, st, events, ambients, from + k);
    }
  }

  /** In the step system: a corrected post adds to the message queue and to what is outstanding just the first part of
      the batch and the rest, or nothing of the rest, and both arrive as they should. */
  lemma PostedEventsArrive(cfg: P.Config, w: P.World, env: M.Env, st: M.State, events: seq<Event>, ambients: seq<Ambient>,
                           post: P.Step) returns (written: seq<Event>, queued: seq<Event>)
    requires M.Shape(env.conf) && |ambients| == |events| && st.lastCorrected >= 0.0
    requires P.Inv(cfg, w) && post.Post? && P.Enabled(w, post)
    requires post.events == Corrected(events, Answers(env, st, events, ambients))
    ensures var w' := P.Apply(cfg, w, post);
            && w'.delivered == w.delivered + written && ArriveFrom(env, st, events, ambients, 0, written)
            && PW.Outstanding(w'.queue) == PW.Outstanding(w.queue) + queued && ArriveFrom(env, st, events, ambients, |written|, queued)
            && (queued == [] || |written| + |queued| == |events|)
  {
    var n := if w.queue.pending == [] && post.writeOk then Min(|post.events|, post.available) else 0;
    P.PostWritesWhatFits(cfg, w, post);
    var overflows := |post.events| > n && |PW.Flatten(w.queue.pending)| + |post.events| - n > cfg.maxPending;
    written, queued := post.events[..n], if overflows then [] else post.events[n..];
    CorrectedIsPart(events, Answers(env, st, events, ambients));
    SplitParts(post.events, events, Answers(env, st, events, ambients), n);
    PartsArrive(env, st, events, ambients, 0, written);
    PartsArrive(env, st, events, ambients, n, queued);
  }

  /** The loop of the post over its light events. */
  method CorrectBatch(filter: F.AlsCorrection, gamma: real -> real, events: seq<Event>, ambients: seq<Ambient>)
    returns (als: seq<Event>)
    requires M.Shape(filter.conf) && |ambients| == |events|
    modifies filter`lastUpdate, filter`lastForced, filter`force, filter`hystMin, filter`hystMax
    modifies filter`lastCorrected, filter`lastAgcGain
    ensures als == Answers(old(filter.Env(gamma)), old(filter.State()), events, ambients)
    ensures filter.State() == After(old(filter.Env(gamma)), old(filter.State()), events, ambients)
  {
    als := [];
    ghost var env, st := filter.Env(gamma), filter.State();
    for i := 0 to |events|
      invariant filter.Env(gamma) == env
      invariant als == Answers(env, st, events[..i], ambients[..i])
      invariant filter.State() == After(env, st, events[..i], ambients[..i])
    {
      var event := events[i];
      assert events[..i + 1][..i] == events[..i] && ambients[..i + 1][..i] == ambients[..i];
      if event.sensorType == TYPE_QTI_WISE_LIGHT {
        event := filter.Process(event, ambients[i].now, ambients[i].brightness, ambients[i].capture, gamma);
      }
      als := als + [event];
    }
    assert events[..|events|] == events && ambients[..|ambients|] == ambients;
  }

  /** The post with the filter it uses: every event written directly, and every event queued, arrives as it should. */
  method PostThroughFilter(proxy: HalProxy, filter: F.AlsCorrection, gamma: real -> real, events: seq<Event>, wakeups: nat,
                           locked: bool, ambients: seq<Ambient>, available: nat, writeOk: bool, now: int)
    returns (written: seq<Event>)
    requires M.Shape(filter.conf) && |ambients| == |events| && filter.lastCorrected >= 0.0
    modifies proxy`pending, proxy`size, proxy`most, proxy`refCount, proxy`timeoutStart, proxy`wakeCalls
    modifies filter`lastUpdate, filter`lastForced, filter`force, filter`hystMin, filter`hystMax
    modifies filter`lastCorrected, filter`lastAgcGain
    ensures ArriveFrom(old(filter.Env(gamma)), old(filter.State()), events, ambients, 0, written)
    ensures proxy.pending == old(proxy.pending)
            || (|proxy.pending| == |old(proxy.pending)| + 1
                && var queued := proxy.pending[|old(proxy.pending)|].events;
                   |written| + |queued| == |events|
                   && ArriveFrom(old(filter.Env(gamma)), old(filter.State()), events, ambients, |written|, queued))
  {
    ghost var env, st := filter.Env(gamma), filter.State();
    var als := CorrectBatch(filter, gamma, events, ambients);
    written := proxy.PostEventsToMessageQueue(events, wakeups, locked, als, available, writeOk, now);
    PartsArrive(env, st, events, ambients, 0, written);
    if |proxy.pending| == |old(proxy.pending)| + 1 {
      PartsArrive(env, st, events, ambients, |written|, proxy.pending[|old(proxy.pending)|].events);
    }
  }
}
