/** Producers and batching consumers sharing one FIFO queue, shut down with one
    sentinel per consumer (level_03/exercice_13.py).

    The event loop is a scheduler: the orchestrator below lets an arbitrary
    schedule pick, at each step, whether some producer puts its next item or
    some consumer takes the next message. An item is identified by its producer
    and its position in that producer's output; its random value and timestamp
    are not modelled. Persisting a batch is recorded as a `Flush`. */
module ProducerConsumer {
  import Sequences

  datatype Payload = Payload(producer: int, index: int)

  datatype Message = Item(payload: Payload) | Sentinel

  /** `consume_data`'s default `batch_size`, which `run_asyncio` uses. */
  const DefaultBatchSize: int := 5

  /** One call of `batch_insert`: the batch, and whether the sentinel caused it. */
  datatype Flush = Flush(items: seq<Payload>, onSentinel: bool)

  /** A consumer's local state: its current batch, the batches it persisted, every
      item it dequeued, and whether it has seen its sentinel. */
  datatype Consumer = Consumer(batch: seq<Payload>, flushes: seq<Flush>, taken: seq<Payload>, done: bool)

  const Start: Consumer := Consumer([], [], [], false)

  /** The items of the flushes, flush after flush. */
  function FlushedItems(fs: seq<Flush>): seq<Payload>
  {
    if fs == [] then [] else FlushedItems(fs[..|fs| - 1]) + fs[|fs| - 1].items
  }

  lemma FlushedItemsSnoc(fs: seq<Flush>, f: Flush)
    ensures FlushedItems(fs + [f]) == FlushedItems(fs) + f.items
  {
    assert (fs + [f])[..|fs|] == fs;
  }

  /** A full batch: `batch_size` items, or a single item when `batch_size` <= 0
      (the length test `>= batch_size` then holds after every append). */
  function FullBatch(batchSize: int): int
  {
    if batchSize >= 1 then batchSize else 1
  }

  /** One iteration of `consume_data`'s loop on the message it dequeued. */
  function Step(c: Consumer, m: Message, batchSize: int): (d: Consumer)
    requires !c.done
    ensures d.taken == c.taken + (if m.Item? then [m.payload] else [])
    ensures d.done <==> m.Sentinel?
  {
    match m
    case Sentinel =>
      Consumer([], if c.batch != [] then c.flushes + [Flush(c.batch, true)] else c.flushes, c.taken, true)
    case Item(x) =>
      var b := c.batch + [x];
      if |b| >= batchSize then Consumer([], c.flushes + [Flush(b, false)], c.taken + [x], false)
      else Consumer(b, c.flushes, c.taken + [x], false)
  }

  /** What a consumer keeps true: the persisted batches then the current batch are
      exactly the items it dequeued, in order; the current batch is never full;
      every flush is non-empty; a flush inside the loop is a full batch; a flush
      caused by the sentinel is the last one, is smaller than a full batch, and
      leaves nothing behind. */
  predicate Good(c: Consumer, batchSize: int)
  {
    && FlushedItems(c.flushes) + c.batch == c.taken
    && |c.batch| < FullBatch(batchSize)
    && (c.done ==> c.batch == [])
    && (forall i :: 0 <= i < |c.flushes| ==> |c.flushes[i].items| >= 1)
    && (forall i :: 0 <= i < |c.flushes| && !c.flushes[i].onSentinel ==> |c.flushes[i].items| == FullBatch(batchSize))
    && (forall i :: 0 <= i < |c.flushes| && c.flushes[i].onSentinel ==>
          c.done && i == |c.flushes| - 1 && |c.flushes[i].items| < FullBatch(batchSize))
  }

  /** A consumer that has not yet taken anything satisfies the invariant. */
  lemma StartGood(batchSize: int)
    ensures Good(Start, batchSize)
  {
  }

  /** Every step keeps the consumer invariant. */
  lemma StepKeepsGood(c: Consumer, m: Message, batchSize: int)
    requires !c.done && Good(c, batchSize)
    ensures Good(Step(c, m, batchSize), batchSize)
  {
    match m
    case Sentinel => SentinelKeepsGood(c, batchSize);
    case Item(x) =>
      if |c.batch + [x]| >= batchSize {
        FullBatchKeepsGood(c, x, batchSize);
      } else {
        assert FlushedItems(c.flushes) + (c.batch + [x]) == c.taken + [x];
      }
  }

  /** The sentinel flushes what is left of the batch, if anything, and stops the consumer. */
  lemma SentinelKeepsGood(c: Consumer, batchSize: int)
    requires !c.done && Good(c, batchSize)
    ensures Good(Step(c, Sentinel, batchSize), batchSize)
  {
    if c.batch != [] {
      FlushedItemsSnoc(c.flushes, Flush(c.batch, true));
    }
  }

  /** An item that fills the batch flushes it whole. */
  lemma FullBatchKeepsGood(c: Consumer, x: Payload, batchSize: int)
    requires !c.done && Good(c, batchSize) && |c.batch + [x]| >= batchSize
    ensures Good(Step(c, Item(x), batchSize), batchSize)
  {
    var b := c.batch + [x];
    var d := Step(c, Item(x), batchSize);
    assert d == Consumer([], c.flushes + [Flush(b, false)], c.taken + [x], false);
    assert |b| == FullBatch(batchSize);
    FlushedItemsSnoc(c.flushes, Flush(b, false));
    assert FlushedItems(d.flushes) + d.batch == c.taken + [x];
    forall i | 0 <= i < |d.flushes|
      ensures !d.flushes[i].onSentinel && |d.flushes[i].items| == FullBatch(batchSize)
    {
      if i < |c.flushes| {
        assert d.flushes[i] == c.flushes[i];
      }
    }
  }

  /** A finished consumer persisted exactly what it dequeued. */
  lemma DoneFlushedAll(c: Consumer, batchSize: int)
    requires Good(c, batchSize) && c.done
    ensures FlushedItems(c.flushes) == c.taken
  {
  }

  /** A consumer fed messages one at a time until it sees its sentinel. */
  function Run(c: Consumer, ms: seq<Message>, batchSize: int): Consumer
    decreases |ms|
  {
    if ms == [] || c.done then c else Run(Step(c, ms[0], batchSize), ms[1..], batchSize)
  }

  /** Messages carrying the given items, in order. */
  function ItemsOf(xs: seq<Payload>): (ms: seq<Message>)
    ensures |ms| == |xs|
    ensures forall i :: 0 <= i < |xs| ==> ms[i] == Item(xs[i])
  {
    seq(|xs|, i requires 0 <= i < |xs| => Item(xs[i]))
  }

  /** A consumer fed some items then a sentinel ends done, having taken exactly
      those items after what it held, and keeps its invariant. */
  lemma {:induction false} RunItemsThenSentinel(c: Consumer, xs: seq<Payload>, rest: seq<Message>, batchSize: int)
    requires !c.done && Good(c, batchSize)
    ensures var d := Run(c, ItemsOf(xs) + [Sentinel] + rest, batchSize);
      d.done && Good(d, batchSize) && d.taken == c.taken + xs
    decreases |xs|
  {
    var ms := ItemsOf(xs) + [Sentinel] + rest;
    StepKeepsGood(c, ms[0], batchSize);
    if xs == [] {
      assert ms[0] == Sentinel;
    } else {
      ItemsThenSentinelTail(xs, rest);
      RunItemsThenSentinel(Step(c, ms[0], batchSize), xs[1..], rest, batchSize);
      Sequences.AppendHeadTail(c.taken, xs);
    }
  }

  lemma ItemsThenSentinelTail(xs: seq<Payload>, rest: seq<Message>)
    requires xs != []
    ensures (ItemsOf(xs) + [Sentinel] + rest)[0] == Item(xs[0])
    ensures (ItemsOf(xs) + [Sentinel] + rest)[1..] == ItemsOf(xs[1..]) + [Sentinel] + rest
  {
  }

  /** The asyncio queue: its messages, and the count of messages put but not yet
      marked done (`join` returns once it is zero). */
  class TaskQueue {
    var contents: seq<Message>
    var unfinished: nat

    constructor()
      ensures contents == [] && unfinished == 0
    {
      contents := [];
      unfinished := 0;
    }

    method Put(m: Message)
      modifies this
      ensures contents == old(contents) + [m] && unfinished == old(unfinished) + 1
    {
      contents := contents + [m];
      unfinished := unfinished + 1;
    }

    /** Called only when a message is waiting; on an empty queue `get` would wait. */
    method Get() returns (m: Message)
      requires contents != []
      modifies this
      ensures m == old(contents)[0] && contents == old(contents)[1..] && unfinished == old(unfinished)
    {
      m := contents[0];
      contents := contents[1..];
    }

    /** `task_done`; `ok` is false where Python raises ValueError (called too often). */
    method TaskDone() returns (ok: bool)
      modifies this
      ensures ok <==> old(unfinished) > 0
      ensures unfinished == if ok then old(unfinished) - 1 else old(unfinished)
      ensures contents == old(contents)
    {
      ok := unfinished > 0;
      if ok {
        unfinished := unfinished - 1;
      }
    }
  }

  /** Index of the first sentinel in ms. */
  function FirstSentinel(ms: seq<Message>): (k: nat)
    requires Sentinel in ms
    ensures k < |ms| && ms[k] == Sentinel && Sentinel !in ms[..k]
  {
    if ms[0] == Sentinel then 0
    else
      assert ms == [ms[0]] + ms[1..];
      1 + FirstSentinel(ms[1..])
  }

  /** A consumer part-way through its messages, that will end as `target`. */
  predicate Consuming(c: Consumer, rest: seq<Message>, target: Consumer, batchSize: int)
  {
    !c.done && Good(c, batchSize) && Run(c, rest, batchSize) == target
  }

  /** One message more: either the run goes on, or it was the sentinel and the
      consumer has reached its final state. */
  lemma ConsumingStep(c: Consumer, rest: seq<Message>, target: Consumer, batchSize: int)
    requires Consuming(c, rest, target, batchSize) && rest != []
    ensures rest[0] != Sentinel ==> Consuming(Step(c, rest[0], batchSize), rest[1..], target, batchSize)
    ensures rest[0] == Sentinel ==> var d := Step(c, rest[0], batchSize);
      d == target && d.done && Good(d, batchSize) && FlushedItems(d.flushes) == d.taken
  {
    StepKeepsGood(c, rest[0], batchSize);
  }

  /** `consume_data` running alone on the queue: it dequeues up to and including
      the first sentinel, calls `task_done` once per message, and ends with every
      dequeued item persisted. */
  method ConsumeData(q: TaskQueue, batchSize: int) returns (c: Consumer, received: seq<Message>)
    requires Sentinel in q.contents && q.unfinished >= |q.contents|
    modifies q
    ensures received == old(q.contents)[..FirstSentinel(old(q.contents)) + 1]
    ensures q.contents == old(q.contents)[|received|..]
    ensures q.unfinished == old(q.unfinished) - |received|
    ensures c == Run(Start, old(q.contents), batchSize)
    ensures c.done && Good(c, batchSize) && FlushedItems(c.flushes) == c.taken
  {
    ghost var all := q.contents;
    ghost var k := FirstSentinel(all);
    ghost var target := Run(Start, all, batchSize);
    c := Start;
    StartGood(batchSize);
    received := [];
    while true
      invariant |received| <= k
      invariant received == all[..|received|] && q.contents == all[|received|..]
      invariant q.unfinished == old(q.unfinished) - |received| && q.unfinished >= |q.contents|
      invariant Consuming(c, all[|received|..], target, batchSize)
      decreases |q.contents|
    {
      ghost var n := |received|;
      ReceivedStep(all, n);
      ConsumingStep(c, all[n..], target, batchSize);
      var m := q.Get();
      c := Step(c, m, batchSize);
      received := received + [m];
      var _ := q.TaskDone();
      if m == Sentinel {
        SentinelAtFirst(all, n);
        return;
      }
    }
  }

  /** Taking the message at position n of the queue's original contents. */
  lemma ReceivedStep(all: seq<Message>, n: nat)
    requires n < |all|
    ensures all[n..][0] == all[n] && all[n..][1..] == all[n + 1..]
    ensures all[..n + 1] == all[..n] + [all[n]]
  {
  }

  /** A sentinel no later than the first one is the first one. */
  lemma SentinelAtFirst(all: seq<Message>, n: nat)
    requires Sentinel in all && n <= FirstSentinel(all) && all[n] == Sentinel
    ensures n == FirstSentinel(all)
  {
  }

  // ---------------------------------------------------------------------------
  // The orchestrator

  /** The items producer p has generated after n rounds, in its own order. */
  function Gen(p: int, n: nat): (xs: seq<Payload>)
    ensures |xs| == n && forall j :: 0 <= j < n ==> xs[j] == Payload(p, j)
  {
    seq(n, j requires 0 <= j < n => Payload(p, j))
  }

  /** The items of producer p, in the order they appear. */
  function Filter(xs: seq<Payload>, p: int): seq<Payload>
  {
    if xs == [] then []
    else Filter(xs[..|xs| - 1], p) + (if xs[|xs| - 1].producer == p then [xs[|xs| - 1]] else [])
  }

  lemma FilterSnoc(xs: seq<Payload>, x: Payload, p: int)
    ensures Filter(xs + [x], p) == Filter(xs, p) + (if x.producer == p then [x] else [])
  {
    assert (xs + [x])[..|xs|] == xs;
  }

  lemma {:induction false} FilterSubset(xs: seq<Payload>, p: int, y: Payload)
    requires y in Filter(xs, p)
    ensures y in xs
  {
    if xs != [] {
      if y in Filter(xs[..|xs| - 1], p) {
        FilterSubset(xs[..|xs| - 1], p, y);
        assert xs == xs[..|xs| - 1] + [xs[|xs| - 1]];
      }
    }
  }

  function Sum(s: seq<nat>): nat
  {
    if s == [] then 0 else Sum(s[..|s| - 1]) + s[|s| - 1]
  }

  lemma {:induction false} SumIncrement(s: seq<nat>, p: nat)
    requires p < |s|
    ensures Sum(s[p := s[p] + 1]) == Sum(s) + 1
  {
    var t := s[p := s[p] + 1];
    if p < |s| - 1 {
      assert t[..|t| - 1] == s[..|s| - 1][p := s[p] + 1];
      SumIncrement(s[..|s| - 1], p);
    } else {
      assert t[..|t| - 1] == s[..|s| - 1];
    }
  }

  lemma {:induction false} SumAllEqual(s: seq<nat>, v: nat)
    requires forall i :: 0 <= i < |s| ==> s[i] == v
    ensures Sum(s) == |s| * v
  {
    if s != [] {
      SumAllEqual(s[..|s| - 1], v);
    }
  }

  predicate AtMost(s: seq<nat>, n: nat)
  {
    forall i :: 0 <= i < |s| ==> s[i] <= n
  }

  /** How many items the producers still have to put. */
  function Deficit(s: seq<nat>, n: nat): nat
    requires AtMost(s, n)
  {
    if s == [] then 0 else Deficit(s[..|s| - 1], n) + (n - s[|s| - 1])
  }

  lemma {:induction false} DeficitIncrement(s: seq<nat>, n: nat, p: nat)
    requires AtMost(s, n)
    requires p < |s| && s[p] < n
    ensures AtMost(s[p := s[p] + 1], n)
    ensures Deficit(s[p := s[p] + 1], n) + 1 == Deficit(s, n)
  {
    var t := s[p := s[p] + 1];
    if p < |s| - 1 {
      assert t[..|t| - 1] == s[..|s| - 1][p := s[p] + 1];
      DeficitIncrement(s[..|s| - 1], n, p);
    } else {
      assert t[..|t| - 1] == s[..|s| - 1];
    }
  }

  /** Every item the consumers have dequeued, as a bag. */
  function TakenBag(cs: seq<Consumer>): multiset<Payload>
  {
    if cs == [] then multiset{} else TakenBag(cs[..|cs| - 1]) + multiset(cs[|cs| - 1].taken)
  }

  lemma {:induction false} TakenBagUpdate(cs: seq<Consumer>, k: nat, c: Consumer)
    requires k < |cs|
    ensures TakenBag(cs[k := c]) + multiset(cs[k].taken) == TakenBag(cs) + multiset(c.taken)
  {
    var ds := cs[k := c];
    if k < |cs| - 1 {
      var front := cs[..|cs| - 1];
      UpdateFront(cs, k, c);
      TakenBagUpdate(front, k, c);
      BagShift(TakenBag(front[k := c]), TakenBag(front), multiset(cs[|cs| - 1].taken),
               multiset(cs[k].taken), multiset(c.taken));
    } else {
      assert ds[..|ds| - 1] == cs[..|cs| - 1];
    }
  }

  /** Updating a position before the last one leaves the last element and updates the front. */
  lemma UpdateFront<T>(s: seq<T>, k: nat, x: T)
    requires k < |s| - 1
    ensures s[k := x][..|s| - 1] == s[..|s| - 1][k := x]
    ensures s[k := x][|s| - 1] == s[|s| - 1] && s[..|s| - 1][k] == s[k]
  {
  }

  lemma BagShift<T>(a: multiset<T>, b: multiset<T>, l: multiset<T>, x: multiset<T>, y: multiset<T>)
    requires a + x == b + y
    ensures (a + l) + x == (b + l) + y
  {
    assert (a + l) + x == (a + x) + l;
    assert (b + l) + y == (b + y) + l;
  }

  /** A consumer that takes e more items adds exactly e to the bag. */
  lemma TakenBagGrows(cs: seq<Consumer>, k: nat, c: Consumer, t: seq<Payload>, e: seq<Payload>)
    requires k < |cs| && TakenBag(cs) == multiset(t) && c.taken == cs[k].taken + e
    ensures TakenBag(cs[k := c]) == multiset(t + e)
  {
    TakenBagUpdate(cs, k, c);
    var a, x, y := TakenBag(cs[k := c]), multiset(cs[k].taken), multiset(e);
    assert multiset(c.taken) == x + y;
    assert a + x == multiset(t) + (x + y);
    forall o | true
      ensures a[o] == (multiset(t) + y)[o]
    {
      assert (a + x)[o] == (multiset(t) + (x + y))[o];
    }
    assert a == multiset(t) + y;
    assert multiset(t + e) == multiset(t) + y;
  }

  /** Every consumer keeps its invariant. */
  predicate AllGood(cs: seq<Consumer>)
  {
    forall j :: 0 <= j < |cs| ==> Good(cs[j], DefaultBatchSize)
  }

  /** Replacing one consumer by another that keeps the invariant keeps it for all. */
  lemma AllGoodUpdate(cs: seq<Consumer>, k: nat, c: Consumer)
    requires k < |cs| && Good(c, DefaultBatchSize) && AllGood(cs)
    ensures AllGood(cs[k := c])
  {
    var ds := cs[k := c];
    forall j | 0 <= j < |ds|
      ensures Good(ds[j], DefaultBatchSize)
    {
      if j != k {
        assert ds[j] == cs[j];
      }
    }
  }

  /** How many consumers have seen their sentinel. */
  function CountDone(cs: seq<Consumer>): nat
  {
    if cs == [] then 0 else CountDone(cs[..|cs| - 1]) + (if cs[|cs| - 1].done then 1 else 0)
  }

  lemma {:induction false} CountDoneUpdate(cs: seq<Consumer>, k: nat, c: Consumer)
    requires k < |cs|
    ensures CountDone(cs[k := c]) + (if cs[k].done then 1 else 0) == CountDone(cs) + (if c.done then 1 else 0)
  {
    var ds := cs[k := c];
    if k < |cs| - 1 {
      assert ds[..|ds| - 1] == cs[..|cs| - 1][k := c];
      CountDoneUpdate(cs[..|cs| - 1], k, c);
    } else {
      assert ds[..|ds| - 1] == cs[..|cs| - 1];
    }
  }

  lemma {:induction false} CountDoneBounds(cs: seq<Consumer>)
    ensures CountDone(cs) <= |cs|
    ensures CountDone(cs) < |cs| ==> exists k :: 0 <= k < |cs| && !cs[k].done
    ensures CountDone(cs) == |cs| ==> forall k :: 0 <= k < |cs| ==> cs[k].done
  {
    if cs != [] {
      CountDoneBounds(cs[..|cs| - 1]);
      if CountDone(cs) == |cs| {
        assert CountDone(cs[..|cs| - 1]) == |cs| - 1;
      }
    }
  }

  lemma {:induction false} CountDoneNone(cs: seq<Consumer>)
    requires forall k :: 0 <= k < |cs| ==> !cs[k].done
    ensures CountDone(cs) == 0
  {
    if cs != [] {
      CountDoneNone(cs[..|cs| - 1]);
    }
  }

  function Sentinels(n: nat): (ms: seq<Message>)
    ensures |ms| == n && forall i :: 0 <= i < n ==> ms[i] == Sentinel
  {
    seq(n, i requires 0 <= i < n => Sentinel)
  }

  function Count(n: int): nat
  {
    if n >= 0 then n else 0
  }

  /** Producer p has put its first produced[p] items, in its own order. */
  predicate ProducersAt(nP: nat, nI: nat, produced: seq<nat>, enqueued: seq<Payload>)
  {
    && |produced| == nP && AtMost(produced, nI)
    && |enqueued| == Sum(produced)
    && (forall p :: 0 <= p < nP ==> Filter(enqueued, p) == Gen(p, produced[p]))
  }

  /** The queue is first-in first-out: what was put is what was taken followed by
      what is waiting. */
  predicate Fifo(puts: seq<Message>, gets: seq<Message>, contents: seq<Message>)
  {
    puts == gets + contents
  }

  /** The consumers hold exactly the items in `taken`, none has seen a sentinel,
      and each keeps its invariant. */
  predicate ConsumersBusy(nC: nat, consumers: seq<Consumer>, taken: seq<Payload>)
  {
    && |consumers| == nC && CountDone(consumers) == 0
    && (forall k :: 0 <= k < nC ==> !consumers[k].done) && AllGood(consumers)
    && TakenBag(consumers) == multiset(taken)
  }

  /** While producers run: only items have been put, and the consumers hold
      exactly the items taken so far. */
  predicate Producing(nP: nat, nI: nat, nC: nat, produced: seq<nat>, enqueued: seq<Payload>,
                      puts: seq<Message>, gets: seq<Message>, contents: seq<Message>, consumers: seq<Consumer>)
  {
    && ProducersAt(nP, nI, produced, enqueued)
    && puts == ItemsOf(enqueued) && Fifo(puts, gets, contents)
    && |gets| <= |enqueued|
    && ConsumersBusy(nC, consumers, enqueued[..|gets|])
  }

  lemma ProducingStart(nP: nat, nI: nat, nC: nat)
    ensures Producing(nP, nI, nC, seq(nP, _ => 0), [], [], [], [], seq(nC, _ => Start))
  {
    var produced: seq<nat> := seq(nP, _ => 0);
    SumAllEqual(produced, 0);
    CountDoneNone(seq(nC, _ => Start));
    TakenBagStart(nC);
  }

  /** Producer p generates and puts its next item. */
  lemma ProducerPuts(nP: nat, nI: nat, produced: seq<nat>, enqueued: seq<Payload>, p: nat)
    requires ProducersAt(nP, nI, produced, enqueued)
    requires p < nP && produced[p] < nI
    ensures ProducersAt(nP, nI, produced[p := produced[p] + 1], enqueued + [Payload(p, produced[p])])
    ensures Deficit(produced[p := produced[p] + 1], nI) < Deficit(produced, nI)
  {
    FiltersAfterPut(nP, produced, enqueued, p);
    SumIncrement(produced, p);
    DeficitIncrement(produced, nI, p);
  }

  /** Producer p's next item extends its own items and no other producer's. */
  lemma FiltersAfterPut(nP: nat, produced: seq<nat>, enqueued: seq<Payload>, p: nat)
    requires |produced| == nP && p < nP
    requires forall r :: 0 <= r < nP ==> Filter(enqueued, r) == Gen(r, produced[r])
    ensures forall r :: 0 <= r < nP ==>
      Filter(enqueued + [Payload(p, produced[p])], r) == Gen(r, produced[p := produced[p] + 1][r])
  {
    var x := Payload(p, produced[p]);
    forall r | 0 <= r < nP
      ensures Filter(enqueued + [x], r) == Gen(r, produced[p := produced[p] + 1][r])
    {
      FilterSnoc(enqueued, x, r);
    }
  }

  /** Producer p puts its next item, while the consumers keep what they hold. */
  lemma ProduceStep(nP: nat, nI: nat, nC: nat, produced: seq<nat>, enqueued: seq<Payload>,
                    puts: seq<Message>, gets: seq<Message>, contents: seq<Message>, consumers: seq<Consumer>, p: nat)
    requires Producing(nP, nI, nC, produced, enqueued, puts, gets, contents, consumers)
    requires p < nP && produced[p] < nI
    ensures var x := Item(Payload(p, produced[p]));
      && Producing(nP, nI, nC, produced[p := produced[p] + 1], enqueued + [x.payload],
                   puts + [x], gets, contents + [x], consumers)
      && AtMost(produced[p := produced[p] + 1], nI)
      && Deficit(produced[p := produced[p] + 1], nI) < Deficit(produced, nI)
  {
    var x := Payload(p, produced[p]);
    ProducerPuts(nP, nI, produced, enqueued, p);
    assert ItemsOf(enqueued + [x]) == ItemsOf(enqueued) + [Item(x)];
    assert (enqueued + [x])[..|gets|] == enqueued[..|gets|];
  }

  /** Consumer k takes one more item. */
  lemma ConsumerTakes(nC: nat, consumers: seq<Consumer>, taken: seq<Payload>, k: nat, x: Payload)
    requires ConsumersBusy(nC, consumers, taken) && k < nC
    ensures ConsumersBusy(nC, consumers[k := Step(consumers[k], Item(x), DefaultBatchSize)], taken + [x])
  {
    var c := Step(consumers[k], Item(x), DefaultBatchSize);
    var cs := consumers[k := c];
    StepKeepsGood(consumers[k], Item(x), DefaultBatchSize);
    AllGoodUpdate(consumers, k, c);
    TakenBagGrows(consumers, k, c, taken, [x]);
    CountDoneUpdate(consumers, k, c);
    forall j | 0 <= j < nC
      ensures !cs[j].done
    {
      if j != k {
        assert cs[j] == consumers[j];
      }
    }
  }

  /** Consumer k takes the next message, which is an item, while producers run. */
  lemma ConsumeStep(nP: nat, nI: nat, nC: nat, produced: seq<nat>, enqueued: seq<Payload>,
                    puts: seq<Message>, gets: seq<Message>, contents: seq<Message>, consumers: seq<Consumer>, k: nat)
    requires Producing(nP, nI, nC, produced, enqueued, puts, gets, contents, consumers)
    requires contents != [] && k < nC
    ensures contents[0].Item?
    ensures Producing(nP, nI, nC, produced, enqueued, puts, gets + [contents[0]], contents[1..],
                      consumers[k := Step(consumers[k], contents[0], DefaultBatchSize)])
  {
    NextItem(enqueued, puts, gets, contents);
    ConsumerTakesNext(nC, consumers, enqueued, |gets|, k);
    ProducingIntro(nP, nI, nC, produced, enqueued, puts, gets + [contents[0]], contents[1..],
                   consumers[k := Step(consumers[k], Item(enqueued[|gets|]), DefaultBatchSize)]);
  }

  /** While only items have been put, the next message out is the next item. */
  lemma NextItem(enqueued: seq<Payload>, puts: seq<Message>, gets: seq<Message>, contents: seq<Message>)
    requires puts == ItemsOf(enqueued) && Fifo(puts, gets, contents) && contents != []
    ensures |gets| < |enqueued| && contents[0] == Item(enqueued[|gets|])
    ensures Fifo(puts, gets + [contents[0]], contents[1..]) && |gets + [contents[0]]| == |gets| + 1
  {
    FifoHead(puts, gets, contents);
    FifoTake(puts, gets, contents);
  }

  lemma ProducingIntro(nP: nat, nI: nat, nC: nat, produced: seq<nat>, enqueued: seq<Payload>,
                       puts: seq<Message>, gets: seq<Message>, contents: seq<Message>, consumers: seq<Consumer>)
    requires ProducersAt(nP, nI, produced, enqueued)
    requires puts == ItemsOf(enqueued) && Fifo(puts, gets, contents)
    requires ConsumersBusy(nC, consumers, enqueued[..|gets|])
    ensures Producing(nP, nI, nC, produced, enqueued, puts, gets, contents, consumers)
  {
  }

  /** Consumer k takes the item after the ones taken so far. */
  lemma ConsumerTakesNext(nC: nat, consumers: seq<Consumer>, enqueued: seq<Payload>, g: nat, k: nat)
    requires g < |enqueued| && k < nC && ConsumersBusy(nC, consumers, enqueued[..g])
    ensures ConsumersBusy(nC, consumers[k := Step(consumers[k], Item(enqueued[g]), DefaultBatchSize)], enqueued[..g + 1])
  {
    Sequences.TakeSnoc(enqueued, g);
    ConsumerTakes(nC, consumers, enqueued[..g], k, enqueued[g]);
  }

  /** Taking the head of a FIFO keeps it a FIFO. */
  lemma FifoTake(puts: seq<Message>, gets: seq<Message>, contents: seq<Message>)
    requires Fifo(puts, gets, contents) && contents != []
    ensures Fifo(puts, gets + [contents[0]], contents[1..])
  {
    assert gets + [contents[0]] + contents[1..] == gets + contents;
  }

  function Min(a: int, b: int): int
  {
    if a <= b then a else b
  }

  /** After the producers: every item was put, then one sentinel per consumer;
      consumers that saw a sentinel are exactly as many as the sentinels taken,
      and the consumers hold exactly the items taken so far. */
  predicate Draining(nC: nat, enqueued: seq<Payload>, puts: seq<Message>, gets: seq<Message>,
                     contents: seq<Message>, consumers: seq<Consumer>)
  {
    && puts == ItemsOf(enqueued) + Sentinels(nC) && Fifo(puts, gets, contents)
    && |consumers| == nC
    && CountDone(consumers) == (if |gets| <= |enqueued| then 0 else |gets| - |enqueued|)
    && AllGood(consumers)
    && TakenBag(consumers) == multiset(enqueued[..Min(|gets|, |enqueued|)])
  }

  /** The sentinels go in behind every item. */
  lemma StartDraining(nP: nat, nI: nat, nC: nat, produced: seq<nat>, enqueued: seq<Payload>,
                      puts: seq<Message>, gets: seq<Message>, contents: seq<Message>, consumers: seq<Consumer>)
    requires Producing(nP, nI, nC, produced, enqueued, puts, gets, contents, consumers)
    ensures Draining(nC, enqueued, puts + Sentinels(nC), gets, contents + Sentinels(nC), consumers)
  {
  }

  /** Consumer k, not yet finished, takes the next message: an item while any is
      left, otherwise a sentinel. */
  lemma DrainTakes(nC: nat, enqueued: seq<Payload>, gets: nat, consumers: seq<Consumer>, k: nat, m: Message)
    requires |consumers| == nC && k < nC && !consumers[k].done
    requires CountDone(consumers) == (if gets <= |enqueued| then 0 else gets - |enqueued|)
    requires AllGood(consumers)
    requires TakenBag(consumers) == multiset(enqueued[..Min(gets, |enqueued|)])
    requires gets < |enqueued| ==> m == Item(enqueued[gets])
    requires gets >= |enqueued| ==> m == Sentinel
    ensures var cs := consumers[k := Step(consumers[k], m, DefaultBatchSize)];
      && CountDone(cs) == (if gets + 1 <= |enqueued| then 0 else gets + 1 - |enqueued|)
      && AllGood(cs)
      && TakenBag(cs) == multiset(enqueued[..Min(gets + 1, |enqueued|)])
  {
    var c := Step(consumers[k], m, DefaultBatchSize);
    StepKeepsGood(consumers[k], m, DefaultBatchSize);
    AllGoodUpdate(consumers, k, c);
    CountDoneUpdate(consumers, k, c);
    DrainBag(enqueued, gets, consumers, k, c);
  }

  /** The bag grows by the item taken, if any. */
  lemma DrainBag(enqueued: seq<Payload>, gets: nat, consumers: seq<Consumer>, k: nat, c: Consumer)
    requires k < |consumers|
    requires TakenBag(consumers) == multiset(enqueued[..Min(gets, |enqueued|)])
    requires c.taken == consumers[k].taken + (if gets < |enqueued| then [enqueued[gets]] else [])
    ensures TakenBag(consumers[k := c]) == multiset(enqueued[..Min(gets + 1, |enqueued|)])
  {
    if gets < |enqueued| {
      Sequences.TakeSnoc(enqueued, gets);
      TakenBagGrows(consumers, k, c, enqueued[..gets], [enqueued[gets]]);
    } else {
      assert enqueued[..Min(gets, |enqueued|)] == enqueued[..Min(gets + 1, |enqueued|)] == enqueued;
      TakenBagSame(consumers, k, c, enqueued);
    }
  }

  /** A consumer that takes no item leaves the bag as it was. */
  lemma TakenBagSame(cs: seq<Consumer>, k: nat, c: Consumer, t: seq<Payload>)
    requires k < |cs| && TakenBag(cs) == multiset(t) && c.taken == cs[k].taken + []
    ensures TakenBag(cs[k := c]) == multiset(t)
  {
    TakenBagGrows(cs, k, c, t, []);
    assert t + [] == t;
  }

  /** Consumer k, not yet finished, takes the next message. */
  lemma DrainStep(nC: nat, enqueued: seq<Payload>, puts: seq<Message>, gets: seq<Message>,
                  contents: seq<Message>, consumers: seq<Consumer>, k: nat)
    requires Draining(nC, enqueued, puts, gets, contents, consumers)
    requires k < nC && !consumers[k].done
    ensures contents != []
    ensures Draining(nC, enqueued, puts, gets + [contents[0]], contents[1..],
                     consumers[k := Step(consumers[k], contents[0], DefaultBatchSize)])
  {
    CountDoneBounds(consumers);
    NextMessage(nC, enqueued, puts, gets, contents);
    DrainTakes(nC, enqueued, |gets|, consumers, k, contents[0]);
    DrainingIntro(nC, enqueued, puts, gets + [contents[0]], contents[1..],
                  consumers[k := Step(consumers[k], contents[0], DefaultBatchSize)]);
  }

  /** After the producers, the next message out is the next item while any is
      left, and a sentinel after that. */
  lemma NextMessage(nC: nat, enqueued: seq<Payload>, puts: seq<Message>, gets: seq<Message>, contents: seq<Message>)
    requires puts == ItemsOf(enqueued) + Sentinels(nC) && Fifo(puts, gets, contents)
    requires |gets| < |enqueued| + nC
    ensures contents != []
    ensures |gets| < |enqueued| ==> contents[0] == Item(enqueued[|gets|])
    ensures |gets| >= |enqueued| ==> contents[0] == Sentinel
    ensures Fifo(puts, gets + [contents[0]], contents[1..]) && |gets + [contents[0]]| == |gets| + 1
  {
    FifoHead(puts, gets, contents);
    FifoTake(puts, gets, contents);
  }

  lemma DrainingIntro(nC: nat, enqueued: seq<Payload>, puts: seq<Message>, gets: seq<Message>,
                      contents: seq<Message>, consumers: seq<Consumer>)
    requires puts == ItemsOf(enqueued) + Sentinels(nC) && Fifo(puts, gets, contents)
    requires |consumers| == nC && AllGood(consumers)
    requires CountDone(consumers) == (if |gets| <= |enqueued| then 0 else |gets| - |enqueued|)
    requires TakenBag(consumers) == multiset(enqueued[..Min(|gets|, |enqueued|)])
    ensures Draining(nC, enqueued, puts, gets, contents, consumers)
  {
  }

  /** Once every consumer has seen its sentinel, every message was taken and
      every item reached exactly one consumer. */
  lemma DrainingDone(nC: nat, enqueued: seq<Payload>, puts: seq<Message>, gets: seq<Message>,
                     contents: seq<Message>, consumers: seq<Consumer>)
    requires Draining(nC, enqueued, puts, gets, contents, consumers)
    requires nC >= 1 && CountDone(consumers) == nC
    ensures gets == puts && contents == []
    ensures TakenBag(consumers) == multiset(enqueued)
    ensures forall k :: 0 <= k < nC ==> consumers[k].done
  {
    CountDoneBounds(consumers);
    assert enqueued[..|enqueued|] == enqueued;
  }

  /** The producers and consumers interleave, under an arbitrary schedule, until
      every producer has put all its items. */
  method ProduceAndConsume(q: TaskQueue, nP: nat, nI: nat, nC: nat)
    returns (consumers: seq<Consumer>, enqueued: seq<Payload>, puts: seq<Message>, gets: seq<Message>,
             produced: seq<nat>)
    requires q.contents == [] && q.unfinished == 0
    modifies q
    ensures Producing(nP, nI, nC, produced, enqueued, puts, gets, q.contents, consumers)
    ensures forall p :: 0 <= p < nP ==> produced[p] == nI
    ensures q.unfinished == |q.contents|
  {
    consumers := seq(nC, _ => Start);
    produced := seq(nP, _ => 0);
    enqueued, puts, gets := [], [], [];
    ProducingStart(nP, nI, nC);
    while exists p :: 0 <= p < nP && produced[p] < nI
      invariant Producing(nP, nI, nC, produced, enqueued, puts, gets, q.contents, consumers)
      invariant q.unfinished == |q.contents|
      decreases 2 * Deficit(produced, nI) + |q.contents|
    {
      var consume: bool := *;
      if consume && q.contents != [] && nC >= 1 {
        var k :| 0 <= k < nC;
        consumers, gets := ConsumeOne(q, nP, nI, nC, produced, enqueued, puts, gets, consumers, k);
      } else {
        var p :| 0 <= p < nP && produced[p] < nI;
        produced, enqueued, puts := ProduceOne(q, nP, nI, nC, produced, enqueued, puts, gets, consumers, p);
      }
    }
  }

  /** Consumer k takes the next message, an item, and handles it. */
  method ConsumeOne(q: TaskQueue, nP: nat, nI: nat, nC: nat, produced: seq<nat>, enqueued: seq<Payload>,
                    puts: seq<Message>, gets: seq<Message>, consumers: seq<Consumer>, k: nat)
    returns (consumers': seq<Consumer>, gets': seq<Message>)
    requires Producing(nP, nI, nC, produced, enqueued, puts, gets, q.contents, consumers)
    requires q.contents != [] && k < nC && q.unfinished == |q.contents|
    modifies q
    ensures Producing(nP, nI, nC, produced, enqueued, puts, gets', q.contents, consumers')
    ensures q.unfinished == |q.contents| && |q.contents| < |old(q.contents)|
  {
    ConsumeStep(nP, nI, nC, produced, enqueued, puts, gets, q.contents, consumers, k);
    var m := q.Get();
    consumers' := consumers[k := Step(consumers[k], m, DefaultBatchSize)];
    var _ := q.TaskDone();
    gets' := gets + [m];
  }

  /** Producer p generates its next item and puts it. */
  method ProduceOne(q: TaskQueue, nP: nat, nI: nat, nC: nat, produced: seq<nat>, enqueued: seq<Payload>,
                    puts: seq<Message>, gets: seq<Message>, consumers: seq<Consumer>, p: nat)
    returns (produced': seq<nat>, enqueued': seq<Payload>, puts': seq<Message>)
    requires Producing(nP, nI, nC, produced, enqueued, puts, gets, q.contents, consumers)
    requires p < nP && produced[p] < nI && q.unfinished == |q.contents|
    modifies q
    ensures Producing(nP, nI, nC, produced', enqueued', puts', gets, q.contents, consumers)
    ensures q.unfinished == |q.contents| && AtMost(produced', nI)
    ensures 2 * Deficit(produced', nI) + |q.contents| < 2 * Deficit(produced, nI) + |old(q.contents)|
  {
    var x := Payload(p, produced[p]);
    ProduceStep(nP, nI, nC, produced, enqueued, puts, gets, q.contents, consumers, p);
    q.Put(Item(x));
    enqueued' := enqueued + [x];
    puts' := puts + [Item(x)];
    produced' := produced[p := produced[p] + 1];
  }

  /** One sentinel per consumer, put after every producer has finished. */
  method PutSentinels(q: TaskQueue, nC: nat)
    modifies q
    ensures q.contents == old(q.contents) + Sentinels(nC)
    ensures q.unfinished == old(q.unfinished) + nC
  {
    var i := 0;
    while i < nC
      invariant 0 <= i <= nC
      invariant q.contents == old(q.contents) + Sentinels(i)
      invariant q.unfinished == old(q.unfinished) + i
    {
      q.Put(Sentinel);
      assert Sentinels(i + 1) == Sentinels(i) + [Sentinel];
      i := i + 1;
    }
  }

  /** The consumers drain the queue, each up to its own sentinel, under an
      arbitrary schedule. */
  method Drain(q: TaskQueue, nC: nat, enqueued: seq<Payload>, puts: seq<Message>,
               gets0: seq<Message>, consumers0: seq<Consumer>)
    returns (consumers: seq<Consumer>, gets: seq<Message>)
    requires Draining(nC, enqueued, puts, gets0, q.contents, consumers0)
    requires q.unfinished == |q.contents|
    modifies q
    ensures Draining(nC, enqueued, puts, gets, q.contents, consumers)
    ensures CountDone(consumers) == nC
    ensures q.unfinished == |q.contents|
  {
    consumers, gets := consumers0, gets0;
    while CountDone(consumers) < nC
      invariant Draining(nC, enqueued, puts, gets, q.contents, consumers)
      invariant q.unfinished == |q.contents|
      decreases |q.contents|
    {
      CountDoneBounds(consumers);
      var k :| 0 <= k < nC && !consumers[k].done;
      consumers, gets := DrainOne(q, nC, enqueued, puts, gets, consumers, k);
    }
    CountDoneBounds(consumers);
  }

  /** Consumer k, not yet finished, takes the next message and handles it. */
  method DrainOne(q: TaskQueue, nC: nat, enqueued: seq<Payload>, puts: seq<Message>,
                  gets: seq<Message>, consumers: seq<Consumer>, k: nat)
    returns (consumers': seq<Consumer>, gets': seq<Message>)
    requires Draining(nC, enqueued, puts, gets, q.contents, consumers)
    requires k < nC && !consumers[k].done && q.unfinished == |q.contents|
    modifies q
    ensures Draining(nC, enqueued, puts, gets', q.contents, consumers')
    ensures q.unfinished == |q.contents| && |q.contents| < |old(q.contents)|
  {
    DrainStep(nC, enqueued, puts, gets, q.contents, consumers, k);
    var m := q.Get();
    consumers' := consumers[k := Step(consumers[k], m, DefaultBatchSize)];
    var _ := q.TaskDone();
    gets' := gets + [m];
  }

  /** `run_asyncio` under an arbitrary schedule: every producer puts all its items
      in its own order, the sentinels follow, and `join` returns exactly when every
      message was marked done, which needs at least one consumer unless nothing
      was put. With a consumer, every item reaches exactly one consumer, every
      consumer stops at its sentinel and persisted everything it took. */
  method RunAsyncio(numProducers: int, numConsumers: int, numItems: int)
    returns (joined: bool, consumers: seq<Consumer>, enqueued: seq<Payload>, puts: seq<Message>, gets: seq<Message>)
    ensures |consumers| == Count(numConsumers)
    ensures |enqueued| == Count(numProducers) * Count(numItems)
    ensures forall p :: 0 <= p < Count(numProducers) ==> Filter(enqueued, p) == Gen(p, Count(numItems))
    ensures puts == ItemsOf(enqueued) + Sentinels(Count(numConsumers))
    ensures joined <==> numConsumers >= 1 || |enqueued| == 0
    ensures numConsumers >= 1 ==> gets == puts
    ensures numConsumers >= 1 ==> TakenBag(consumers) == multiset(enqueued)
    ensures forall k :: 0 <= k < |consumers| ==>
      consumers[k].done && Good(consumers[k], DefaultBatchSize)
      && FlushedItems(consumers[k].flushes) == consumers[k].taken
  {
    var nP, nI, nC := Count(numProducers), Count(numItems), Count(numConsumers);
    var q := new TaskQueue();
    var produced;
    consumers, enqueued, puts, gets, produced := ProduceAndConsume(q, nP, nI, nC);
    SumAllEqual(produced, nI);
    StartDraining(nP, nI, nC, produced, enqueued, puts, gets, q.contents, consumers);
    PutSentinels(q, nC);
    puts := puts + Sentinels(nC);
    consumers, gets := Drain(q, nC, enqueued, puts, gets, consumers);
    if nC >= 1 {
      DrainingDone(nC, enqueued, puts, gets, q.contents, consumers);
    }
    CountDoneBounds(consumers);
    forall k | 0 <= k < |consumers|
      ensures FlushedItems(consumers[k].flushes) == consumers[k].taken
    {
      assert Good(consumers[k], DefaultBatchSize);
    }
    joined := q.unfinished == 0;
  }

  /** The next message out of a FIFO is the first one put that was not yet taken. */
  lemma FifoHead(puts: seq<Message>, gets: seq<Message>, contents: seq<Message>)
    requires puts == gets + contents
    ensures contents != [] ==> |gets| < |puts| && contents[0] == puts[|gets|]
    ensures |gets| <= |puts| && (contents == [] <==> |gets| == |puts|)
  {
  }

  lemma {:induction false} TakenBagStart(n: nat)
    ensures TakenBag(seq(n, _ => Start)) == multiset{}
  {
    if n > 0 {
      assert seq(n, _ => Start)[..n - 1] == seq(n - 1, _ => Start);
      TakenBagStart(n - 1);
    }
  }
}
