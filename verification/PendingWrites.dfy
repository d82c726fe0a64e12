/** The bounded queue of event batches that did not fit into the message queue, and its writer thread. */
module PendingWrites {
  import opened Basics
  import opened SensorHandles
  import opened SensorTypes

  datatype Batch = Batch(events: seq<Event>, wakeups: nat)

  /** Where the writer thread is. It holds no mutex from `Writing` to `Written`: other threads post then.
      `count`, `quantum` and `wakeups` are its locals numToWrite, eventQueueSize and numWakeupEvents. */
  datatype Writer = Idle | Writing(count: nat, quantum: nat, wakeups: nat) | Written(count: nat, quantum: nat)

  /** `size` is an int because nothing in the code itself rules out that a subtraction underflows. */
  datatype Queue = Queue(pending: seq<Batch>, size: int, most: int, writer: Writer)

  const EMPTY: Queue := Queue([], 0, 0, Idle)

  function Flatten(batches: seq<Batch>): seq<Event> {
    if batches == [] then [] else batches[0].events + Flatten(batches[1..])
  }

  // ---- Posting ----

  /** How many of the events go straight into the message queue. */
  function Direct(q: Queue, events: seq<Event>, available: nat, writeOk: bool): nat {
    if q.pending != [] then 0
    else
      var n := Min(|events|, available);
      if n > 0 && !writeOk then 0 else n
  }

  /** Whether the rest fits under the bound; otherwise it is dropped. */
  predicate TailFits(q: Queue, maxPending: nat, tail: seq<Event>) {
    tail != [] && q.size + |tail| <= maxPending
  }

  function Enqueue(q: Queue, maxPending: nat, tail: seq<Event>, wakeups: nat): Queue {
    if TailFits(q, maxPending, tail) then
      q.(pending := q.pending + [Batch(tail, wakeups)],
         size := q.size + |tail|,
         most := Max(q.most, q.size + |tail|))
    else q
  }

  function PostTo(q: Queue, maxPending: nat, events: seq<Event>, wakeups: nat, available: nat, writeOk: bool): Queue {
    Enqueue(q, maxPending, events[Direct(q, events, available, writeOk)..], wakeups)
  }

  // ---- Draining ----

  function BeginWrite(q: Queue, quantum: nat): Queue
    requires q.pending != []
  {
    q.(writer := Writing(Min(|q.pending[0].events|, quantum), quantum, q.pending[0].wakeups))
  }

  function FinishWrite(q: Queue): Queue
    requires q.writer.Writing?
  {
    q.(writer := Written(q.writer.count, q.writer.quantum))
  }

  function EndWrite(q: Queue): Queue
    requires q.pending != [] && q.writer.Written?
  {
    var front := q.pending[0];
    q.(size := q.size - q.writer.count,
       pending := if |front.events| > q.writer.quantum
                  then [Batch(front.events[q.writer.quantum..], front.wakeups)] + q.pending[1..]
                  else q.pending[1..],
       writer := Idle)
  }

  /** The references given back when the write of the front chunk fails. */
  function GiveBack(wake: set<int32>, q: Queue): nat
    requires q.pending != [] && q.writer.Writing?
  {
    var front := q.pending[0].events;
    if q.writer.wakeups == 0 then 0
    else if |front| > q.writer.quantum then WakeUps(wake, front[..q.writer.quantum])
    else q.writer.wakeups
  }

  // ---- The invariant ----

  ghost predicate Valid(q: Queue, maxPending: nat) {
    && q.size == |Flatten(q.pending)| <= maxPending
    && q.size <= q.most
    && (forall i | 0 <= i < |q.pending| :: q.pending[i].events != [])
    && (q.writer != Idle ==> q.pending != [] && q.writer.count == Min(|q.pending[0].events|, q.writer.quantum))
    && (q.writer.Writing? ==> q.writer.wakeups == q.pending[0].wakeups)
  }

  /** The events still to be written: those of the queue, less the chunk that is written but not yet removed. */
  function Outstanding(q: Queue): (events: seq<Event>)
  {
    var all := Flatten(q.pending);
    if q.writer.Written? && q.writer.count <= |all| then all[q.writer.count..] else all
  }

  lemma {:induction false} FlattenConcat(a: seq<Batch>, b: seq<Batch>)
    ensures Flatten(a + b) == Flatten(a) + Flatten(b)
  {
    if a == [] {
      assert a + b == b;
    } else {
      assert (a + b)[1..] == a[1..] + b;
      FlattenConcat(a[1..], b);
    }
  }

  lemma FlattenOne(b: Batch)
    ensures Flatten([b]) == b.events
  {
    assert [b][1..] == [];
  }

  /** A post only appends the queued tail to what is outstanding, also while a chunk is in flight, and
      writes directly only when nothing is outstanding. */
  lemma PostAppends(q: Queue, maxPending: nat, events: seq<Event>, wakeups: nat, available: nat, writeOk: bool)
    requires Valid(q, maxPending)
    ensures var n := Direct(q, events, available, writeOk);
            var q' := PostTo(q, maxPending, events, wakeups, available, writeOk);
            && Valid(q', maxPending)
            && (n > 0 ==> Outstanding(q) == [])
            && Outstanding(q') == Outstanding(q) + (if TailFits(q, maxPending, events[n..]) then events[n..] else [])
  {
    var n := Direct(q, events, available, writeOk);
    var tail := events[n..];
    if TailFits(q, maxPending, tail) {
      var b := Batch(tail, wakeups);
      FlattenConcat(q.pending, [b]);
      FlattenOne(b);
      if q.writer != Idle {
        FrontChunkIsPrefix(q, maxPending);
      }
    }
  }

  lemma FrontChunkIsPrefix(q: Queue, maxPending: nat)
    requires Valid(q, maxPending) && q.writer != Idle
    ensures q.writer.count <= |q.pending[0].events| <= |Flatten(q.pending)|
    ensures Flatten(q.pending)[..q.writer.count] == q.pending[0].events[..q.writer.count]
  {
  }

  lemma WriteTakesFrontChunk(q: Queue, maxPending: nat)
    requires Valid(q, maxPending) && q.writer.Writing?
    ensures Valid(FinishWrite(q), maxPending)
    ensures q.writer.count <= |Outstanding(q)|
    ensures Outstanding(q)[..q.writer.count] == q.pending[0].events[..q.writer.count]
    ensures Outstanding(FinishWrite(q)) == Outstanding(q)[q.writer.count..]
  {
    FrontChunkIsPrefix(q, maxPending);
  }

  /** Removing the written chunk changes nothing about what is outstanding, and never underflows the size. */
  lemma EndWriteRemovesChunk(q: Queue, maxPending: nat)
    requires Valid(q, maxPending) && q.writer.Written?
    ensures Valid(EndWrite(q), maxPending) && 0 <= EndWrite(q).size == q.size - q.writer.count
    ensures Outstanding(EndWrite(q)) == Outstanding(q)
  {
    FrontChunkIsPrefix(q, maxPending);
    var front := q.pending[0];
    var rest := Flatten(q.pending[1..]);
    var n := q.writer.count;
    assert (front.events + rest)[n..] == front.events[n..] + rest;
    if |front.events| > q.writer.quantum {
      var b := Batch(front.events[n..], front.wakeups);
      assert ([b] + q.pending[1..])[1..] == q.pending[1..];
    }
  }

  // ---- Draining with no new posts ----

  /** One full iteration of the writer thread, whatever the outcome of the write. */
  function DrainOnce(q: Queue, quantum: nat): Queue
    requires q.pending != []
  {
    EndWrite(FinishWrite(BeginWrite(q, quantum)))
  }

  /** The iterations that a list of `n` events takes, a message queue's worth each. */
  function ChunkCount(n: nat, quantum: nat): nat
    requires quantum > 0
  {
    if n == 0 then 0 else if n <= quantum then 1 else 1 + ChunkCount(n - quantum, quantum)
  }

  /** The number of iterations the pending lists need at a given message queue size. */
  function Iterations(batches: seq<Batch>, quantum: nat): nat
    requires quantum > 0
  {
    if batches == [] then 0 else ChunkCount(|batches[0].events|, quantum) + Iterations(batches[1..], quantum)
  }

  /** That is the quotient, rounded up. */
  lemma {:induction false} ChunkCountIsCeiling(n: nat, quantum: nat)
    requires quantum > 0
    ensures ChunkCount(n, quantum) == (n + quantum - 1) / quantum
  {
    if n > quantum {
      ChunkCountIsCeiling(n - quantum, quantum);
      DivideShifted(n - 1, quantum);
    } else if n > 0 {
      DivideShifted(n - 1, quantum);
      assert (n - 1) / quantum == 0;
    } else {
      assert (quantum - 1) / quantum == 0;
    }
  }

  lemma MulGap(d: nat, a: int, b: int)
    requires a < b
    ensures d * a + d <= d * b
    decreases b - a
  {
    if a + 1 < b {
      MulGap(d, a, b - 1);
    }
  }

  lemma DivideShifted(x: nat, d: nat)
    requires d > 0
    ensures (x + d) / d == x / d + 1
  {
    var q, q' := x / d + 1, (x + d) / d;
    assert x + d == d * q + x % d;
    assert x + d == d * q' + (x + d) % d;
    if q < q' {
      MulGap(d, q, q');
    } else if q' < q {
      MulGap(d, q', q);
    }
  }

  /** Each iteration strictly shrinks the queue and takes one off the count of iterations needed. */
  lemma DrainProgress(q: Queue, maxPending: nat, quantum: nat)
    requires Valid(q, maxPending) && q.writer == Idle && q.pending != [] && quantum > 0
    ensures var q' := DrainOnce(q, quantum);
            && Valid(q', maxPending) && q'.writer == Idle
            && q'.size < q.size
            && Iterations(q'.pending, quantum) + 1 == Iterations(q.pending, quantum)
            && Flatten(q.pending) == q.pending[0].events[..Min(|q.pending[0].events|, quantum)] + Flatten(q'.pending)
  {
    var b := BeginWrite(q, quantum);
    WriteTakesFrontChunk(b, maxPending);
    EndWriteRemovesChunk(FinishWrite(b), maxPending);
    FrontChunkIsPrefix(b, maxPending);
  }
}
