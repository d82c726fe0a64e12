/** What became of every event ever posted, kept beside the posting history. */
module Histories {
  import opened SensorTypes

  /** `Sent`: written to the message queue. `Queued`: waiting for the writer thread. `Lost`: dropped. */
  datatype Fate = Sent | Queued | Lost

  function Pick(events: seq<Event>, fates: seq<Fate>, f: Fate): seq<Event>
    requires |events| == |fates|
  {
    if events == [] then []
    else (if fates[0] == f then [events[0]] else []) + Pick(events[1..], fates[1..], f)
  }

  /** The posted events that were not dropped, in posting order. */
  function Kept(events: seq<Event>, fates: seq<Fate>): seq<Event>
    requires |events| == |fates|
  {
    if events == [] then []
    else (if fates[0] != Lost then [events[0]] else []) + Kept(events[1..], fates[1..])
  }

  /** The first `n` queued events get the fate `f`. */
  function Settle(fates: seq<Fate>, n: nat, f: Fate): (r: seq<Fate>)
    ensures |r| == |fates|
  {
    if fates == [] || n == 0 then fates
    else if fates[0] == Queued then [f] + Settle(fates[1..], n - 1, f)
    else [fates[0]] + Settle(fates[1..], n, f)
  }

  function Repeat(f: Fate, n: nat): (r: seq<Fate>)
    ensures |r| == n
  {
    seq(n, _ => f)
  }

  /** First in, first out: nothing was sent that was posted after an event still queued. */
  ghost predicate Ordered(fates: seq<Fate>) {
    forall i, j | 0 <= i < j < |fates| :: fates[i] == Queued ==> fates[j] != Sent
  }

  lemma PickCons(events: seq<Event>, head: Fate, tail: seq<Fate>, f: Fate)
    requires |events| == 1 + |tail|
    ensures Pick(events, [head] + tail, f) == (if head == f then [events[0]] else []) + Pick(events[1..], tail, f)
  {
    assert ([head] + tail)[1..] == tail;
  }

  lemma {:induction false} PickConcat(a: seq<Event>, fa: seq<Fate>, b: seq<Event>, fb: seq<Fate>, f: Fate)
    requires |a| == |fa| && |b| == |fb|
    ensures Pick(a + b, fa + fb, f) == Pick(a, fa, f) + Pick(b, fb, f)
  {
    if a == [] {
      assert a + b == b && fa + fb == fb;
    } else {
      PickConcat(a[1..], fa[1..], b, fb, f);
      assert (a + b)[1..] == a[1..] + b && fa + fb == [fa[0]] + (fa[1..] + fb);
      PickCons(a + b, fa[0], fa[1..] + fb, f);
      var head := if fa[0] == f then [a[0]] else [];
      assert head + (Pick(a[1..], fa[1..], f) + Pick(b, fb, f)) == (head + Pick(a[1..], fa[1..], f)) + Pick(b, fb, f);
    }
  }

  lemma {:induction false} PickRepeat(events: seq<Event>, g: Fate, f: Fate)
    ensures Pick(events, Repeat(g, |events|), f) == if f == g then events else []
  {
    if events != [] {
      assert Repeat(g, |events|)[1..] == Repeat(g, |events[1..]|);
      PickRepeat(events[1..], g, f);
    }
  }

  lemma {:induction false} NothingPicked(events: seq<Event>, fates: seq<Fate>, f: Fate)
    requires |events| == |fates|
    ensures Pick(events, fates, f) == [] <==> f !in fates
  {
    if events != [] {
      NothingPicked(events[1..], fates[1..], f);
      assert f in fates <==> fates[0] == f || f in fates[1..];
    }
  }

  /** In order, "not dropped" is "sent" followed by "queued". */
  lemma {:induction false} KeptIsSentThenQueued(events: seq<Event>, fates: seq<Fate>)
    requires |events| == |fates| && Ordered(fates)
    ensures Kept(events, fates) == Pick(events, fates, Sent) + Pick(events, fates, Queued)
  {
    if events != [] {
      KeptIsSentThenQueued(events[1..], fates[1..]);
      NothingPicked(events[1..], fates[1..], Sent);
      KeptOneMore(events, fates);
    }
  }

  lemma KeptOneMore(events: seq<Event>, fates: seq<Fate>)
    requires |events| == |fates| && events != []
    requires Kept(events[1..], fates[1..]) == Pick(events[1..], fates[1..], Sent) + Pick(events[1..], fates[1..], Queued)
    requires fates[0] == Queued ==> Pick(events[1..], fates[1..], Sent) == []
    ensures Kept(events, fates) == Pick(events, fates, Sent) + Pick(events, fates, Queued)
  {
  }

  lemma {:induction false} KeptAll(events: seq<Event>, fates: seq<Fate>)
    requires |events| == |fates| && Lost !in fates
    ensures Kept(events, fates) == events
  {
    if events != [] {
      KeptAll(events[1..], fates[1..]);
    }
  }

  /** Settling the first `n` queued events moves exactly those, in order, out of the queued ones. */
  predicate Moved(events: seq<Event>, fates: seq<Fate>, n: nat, f: Fate)
    requires |events| == |fates|
  {
    var queued := Pick(events, fates, Queued);
    && n <= |queued|
    && Pick(events, Settle(fates, n, f), Queued) == queued[n..]
    && Pick(events, Settle(fates, n, f), Sent) == Pick(events, fates, Sent) + (if f == Sent then queued[..n] else [])
  }

  lemma {:induction false} SettleMoves(events: seq<Event>, fates: seq<Fate>, n: nat, f: Fate)
    requires |events| == |fates| && Ordered(fates) && f != Queued
    requires n <= |Pick(events, fates, Queued)|
    ensures Moved(events, fates, n, f)
  {
    if n == 0 {
      assert Settle(fates, n, f) == fates;
    } else if fates[0] == Queued {
      NothingPicked(events[1..], fates[1..], Sent);
      SettleMoves(events[1..], fates[1..], n - 1, f);
      SettleFirst(events, fates, n, f);
    } else {
      SettleMoves(events[1..], fates[1..], n, f);
      SettleLater(events, fates, n, f);
    }
  }

  lemma ConsSplit(e: Event, queued: seq<Event>, n: nat)
    requires 0 < n <= 1 + |queued|
    ensures ([e] + queued)[..n] == [e] + queued[..n - 1] && ([e] + queued)[n..] == queued[n - 1..]
  {
  }

  lemma SettleFirst(events: seq<Event>, fates: seq<Fate>, n: nat, f: Fate)
    requires |events| == |fates| && events != [] && n > 0 && f != Queued && fates[0] == Queued
    requires Pick(events[1..], fates[1..], Sent) == [] && Moved(events[1..], fates[1..], n - 1, f)
    ensures Moved(events, fates, n, f)
  {
    var settled, queued := Settle(fates[1..], n - 1, f), Pick(events[1..], fates[1..], Queued);
    PickCons(events, f, settled, Queued);
    PickCons(events, f, settled, Sent);
    ConsSplit(events[0], queued, n);
  }

  lemma SettleLater(events: seq<Event>, fates: seq<Fate>, n: nat, f: Fate)
    requires |events| == |fates| && events != [] && n > 0 && fates[0] != Queued
    requires Moved(events[1..], fates[1..], n, f)
    ensures Moved(events, fates, n, f)
  {
    var settled := Settle(fates[1..], n, f);
    PickCons(events, fates[0], settled, Queued);
    PickCons(events, fates[0], settled, Sent);
    var queued, sent := Pick(events[1..], fates[1..], Queued), Pick(events[1..], fates[1..], Sent);
    var moved := if f == Sent then queued[..n] else [];
    assert ([events[0]] + sent) + moved == [events[0]] + (sent + moved);
  }

  lemma PickRepeats(events: seq<Event>, n: nat, g: Fate, h: Fate, f: Fate)
    requires n <= |events|
    ensures Pick(events, Repeat(g, n) + Repeat(h, |events| - n), f)
         == (if f == g then events[..n] else []) + (if f == h then events[n..] else [])
  {
    assert events == events[..n] + events[n..];
    PickConcat(events[..n], Repeat(g, n), events[n..], Repeat(h, |events| - n), f);
    PickRepeat(events[..n], g, f);
    PickRepeat(events[n..], h, f);
  }

  /** What settling does to a single fate: a queued one may take the new fate, every other one is final. */
  lemma {:induction false} SettleIsFinal(fates: seq<Fate>, n: nat, f: Fate)
    requires f != Queued
    ensures forall i | 0 <= i < |fates| ::
              Settle(fates, n, f)[i] == fates[i] || (fates[i] == Queued && Settle(fates, n, f)[i] == f)
    ensures forall i, j | 0 <= i < j < |fates| ::
              fates[i] == Queued && Settle(fates, n, f)[i] == Queued ==> Settle(fates, n, f)[j] == fates[j]
  {
    if fates != [] && n > 0 {
      var m := if fates[0] == Queued then n - 1 else n;
      SettleIsFinal(fates[1..], m, f);
      var r := Settle(fates, n, f);
      assert r[1..] == Settle(fates[1..], m, f);
      assert forall i | 1 <= i < |fates| :: r[i] == r[1..][i - 1] && fates[i] == fates[1..][i - 1];
    }
  }

  lemma SettleKeepsOrder(fates: seq<Fate>, n: nat, f: Fate)
    requires Ordered(fates) && f != Queued
    ensures Ordered(Settle(fates, n, f))
  {
    SettleIsFinal(fates, n, f);
  }
}
