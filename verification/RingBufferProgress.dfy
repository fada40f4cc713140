/** What an operation on the ring buffer achieves, however the steps of the
    other side fall between its own. */
module RingBufferProgress {
  import Arith
  import opened RingBufferProtocol

  predicate OfProducer(e: Event) {
    e.BeginEnqueue? || e.CheckFull? || e.WriteWord? || e.PublishHead?
  }

  /** The steps of one side among a run's events. */
  function Part(es: seq<Event>, producer: bool): seq<Event> {
    if es == [] then []
    else if OfProducer(es[|es| - 1]) == producer then Part(es[..|es| - 1], producer) + [es[|es| - 1]]
    else Part(es[..|es| - 1], producer)
  }

  function Repeat(e: Event, n: nat): seq<Event> {
    seq(n, i requires 0 <= i < n => e)
  }

  ghost predicate Reachable(size: nat, width: nat, buffer: seq<Item>, s: State) {
    Mapped(size, width, buffer) && exists es :: s == Exec(width, Init(buffer), es)
  }

  lemma ReachableInv(size: nat, width: nat, buffer: seq<Item>, s: State)
    requires Reachable(size, width, buffer, s)
    ensures Inv(size, width, s)
  {
    var es :| s == Exec(width, Init(buffer), es);
    InitInv(size, width, buffer);
    ExecInv(size, width, Init(buffer), es);
  }

  // ---- The producer ----

  /** What the consumer's steps leave alone. */
  lemma ConsumerStep(width: nat, s: State, e: Event)
    requires !OfProducer(e)
    ensures var t := Step(width, s, e);
      && t.producer == s.producer && t.accepted == s.accepted && t.heads == s.heads && t.tailView == s.tailView
  {}

  lemma {:induction false} ConsumerRun(width: nat, s: State, es: seq<Event>)
    requires Part(es, true) == []
    ensures var t := Exec(width, s, es);
      t.producer == s.producer && t.accepted == s.accepted && t.heads == s.heads && t.tailView == s.tailView
    decreases |es|
  {
    hide Step;
    if es != [] {
      ConsumerRun(width, s, es[..|es| - 1]);
      ConsumerStep(width, Exec(width, s, es[..|es| - 1]), es[|es| - 1]);
    }
  }

  lemma WriteStep(size: nat, width: nat, s: State)
    requires Inv(size, width, s) && s.producer.Writing? && s.producer.copied < width
    ensures var t := Step(width, s, WriteWord);
      && t.producer == s.producer.(copied := s.producer.copied + 1)
      && t.accepted == s.accepted && t.heads == s.heads
  {}

  /** n words written, with the consumer's steps in between. */
  lemma {:induction false} WritesAdvance(size: nat, width: nat, s: State, es: seq<Event>, n: nat)
    requires Inv(size, width, s) && s.producer.Writing? && s.producer.copied + n <= width
    requires Part(es, true) == Repeat(WriteWord, n)
    ensures var t := Exec(width, s, es);
      && Inv(size, width, t)
      && t.producer == s.producer.(copied := s.producer.copied + n)
      && t.accepted == s.accepted && t.heads == s.heads
    decreases |es|
  {
    hide Step, Inv;
    if es != [] {
      var front, e := es[..|es| - 1], es[|es| - 1];
      if OfProducer(e) {
        assert n > 0 by { assert Part(es, true) != []; }
        assert Repeat(WriteWord, n)[..n - 1] == Repeat(WriteWord, n - 1);
        assert Part(front, true) == Part(es, true)[..n - 1];
        assert e == Part(es, true)[n - 1];
        WritesAdvance(size, width, s, front, n - 1);
        WriteStep(size, width, Exec(width, s, front));
      } else {
        WritesAdvance(size, width, s, front, n);
        ConsumerStep(width, Exec(width, s, front), e);
      }
      StepInv(size, width, Exec(width, s, front), e);
    } else {
      assert |Repeat(WriteWord, n)| == n;
    }
  }

  /** The run of an enqueue: begin, steps of the consumer, the full test on tail
      store number `pos`, one write a word with steps of the consumer in
      between, and the publication of the new head. */
  function Checked(width: nat, s: State, item: Item, a: seq<Event>): State {
    Exec(width, Step(width, s, BeginEnqueue(item)), a)
  }

  function Enqueued(width: nat, s: State, item: Item, a: seq<Event>, pos: nat, b: seq<Event>): State {
    Step(width, Exec(width, Step(width, Checked(width, s, item, a), CheckFull(pos)), b), PublishHead)
  }

  lemma CheckFullEffect(size: nat, width: nat, s: State, pos: nat)
    requires Inv(size, width, s) && s.producer.Checking? && s.tailView <= pos < |s.tails|
    ensures var t := Step(width, s, CheckFull(pos));
      && t.accepted == s.accepted && t.heads == s.heads
      && t.producer == if |s.accepted| - pos < size - 1 then Writing(s.producer.item, s.producer.head, 0)
                       else ProducerIdle
  {
    hide Contents, ConsumerOk;
    FullTest(size, s, pos);
  }

  lemma PublishHeadEffect(size: nat, width: nat, s: State)
    requires Inv(size, width, s)
    ensures var t := Step(width, s, PublishHead);
      && (s.producer.Writing? && s.producer.copied == width ==>
           && t.accepted == s.accepted + [s.producer.item] && t.producer.ProducerIdle?
           && t.heads == s.heads + [(|s.accepted| + 1) % size])
      && (s.producer.ProducerIdle? ==> t == s)
  {
    hide Contents, ConsumerOk, Lags;
    if s.producer.Writing? { PublishedIndex(size, |s.accepted|); }
  }

  lemma PublishedIndex(size: nat, n: nat)
    requires size > 0
    ensures (n % size + 1) % size == (n + 1) % size
  {
    Arith.ModSucc(n, size);
  }

  /** An idle producer writes nothing. */
  lemma {:induction false} IdleRun(width: nat, s: State, es: seq<Event>, n: nat)
    requires s.producer.ProducerIdle? && Part(es, true) == Repeat(WriteWord, n)
    ensures var t := Exec(width, s, es);
      t.producer == s.producer && t.accepted == s.accepted && t.heads == s.heads
    decreases |es|
  {
    if es != [] {
      var front, e := es[..|es| - 1], es[|es| - 1];
      if OfProducer(e) {
        assert n > 0 by { assert Part(es, true) != []; }
        assert Repeat(WriteWord, n)[..n - 1] == Repeat(WriteWord, n - 1);
        assert Part(front, true) == Part(es, true)[..n - 1];
        assert e == Part(es, true)[n - 1];
        IdleRun(width, s, front, n - 1);
      } else {
        hide Step;
        IdleRun(width, s, front, n);
        ConsumerStep(width, Exec(width, s, front), e);
      }
    }
  }

  /** An enqueue is accepted, as the next item, exactly when the tail it reads
      shows fewer than size - 1 items; otherwise it leaves no trace.  Either way
      the producer is idle again.  The consumer may do anything meanwhile. */
  lemma EnqueueCompletes(size: nat, width: nat, buffer: seq<Item>, s: State, item: Item,
                         a: seq<Event>, pos: nat, b: seq<Event>)
    requires Reachable(size, width, buffer, s) && s.producer.ProducerIdle? && |item| == width
    requires Part(a, true) == [] && Part(b, true) == Repeat(WriteWord, width)
    requires var c := Checked(width, s, item, a); c.tailView <= pos < |c.tails|
    ensures var t := Enqueued(width, s, item, a, pos, b);
      && t.producer.ProducerIdle?
      && t.accepted == (if |s.accepted| - pos < size - 1 then s.accepted + [item] else s.accepted)
      && |t.heads| == |t.accepted| + 1
  {
    hide Exec, Step, Inv, Repeat, Part;
    ReachableInv(size, width, buffer, s);
    BeginEnqueueEffect(size, width, s, item);
    var begun, c := Step(width, s, BeginEnqueue(item)), Checked(width, s, item, a);
    StepInv(size, width, s, BeginEnqueue(item));
    ExecInv(size, width, begun, a);
    ConsumerRun(width, begun, a);
    CheckFullEffect(size, width, c, pos);
    var d := Step(width, c, CheckFull(pos));
    StepInv(size, width, c, CheckFull(pos));
    ExecInv(size, width, d, b);
    if |s.accepted| - pos < size - 1 {
      WritesAdvance(size, width, d, b, width);
    } else {
      IdleRun(width, d, b, width);
    }
    PublishHeadEffect(size, width, Exec(width, d, b));
    StepInv(size, width, Exec(width, d, b), PublishHead);
    HeadsCount(size, width, Enqueued(width, s, item, a, pos, b));
  }

  lemma BeginEnqueueEffect(size: nat, width: nat, s: State, item: Item)
    requires Inv(size, width, s) && s.producer.ProducerIdle? && |item| == width
    ensures var t := Step(width, s, BeginEnqueue(item));
      t.producer.Checking? && t.producer.item == item && t.accepted == s.accepted
  {
    hide Contents, ConsumerOk;
  }

  lemma HeadsCount(size: nat, width: nat, s: State)
    requires Inv(size, width, s)
    ensures |s.heads| == |s.accepted| + 1 && |s.tails| == |s.delivered| + 1
  {
    hide Contents, ProducerOk, ConsumerOk;
  }

  // ---- The consumer ----

  lemma ProducerStep(width: nat, s: State, e: Event)
    requires OfProducer(e)
    ensures var t := Step(width, s, e);
      && t.consumer == s.consumer && t.delivered == s.delivered && t.tails == s.tails && t.headView == s.headView
      && s.accepted <= t.accepted
  {}

  lemma {:induction false} ProducerRun(width: nat, s: State, es: seq<Event>)
    requires Part(es, false) == []
    ensures var t := Exec(width, s, es);
      && t.consumer == s.consumer && t.delivered == s.delivered && t.tails == s.tails && t.headView == s.headView
      && s.accepted <= t.accepted
    decreases |es|
  {
    hide Step;
    if es != [] {
      ProducerRun(width, s, es[..|es| - 1]);
      ProducerStep(width, Exec(width, s, es[..|es| - 1]), es[|es| - 1]);
    }
  }

  lemma ReadStep(size: nat, width: nat, s: State)
    requires Inv(size, width, s) && s.consumer.Reading? && |s.consumer.got| < width
    ensures var t := Step(width, s, ReadWord);
      && t.consumer.Reading? && |t.consumer.got| == |s.consumer.got| + 1
      && t.delivered == s.delivered && t.accepted == s.accepted
  {}

  /** n words read, with the producer's steps in between. */
  lemma {:induction false} ReadsAdvance(size: nat, width: nat, s: State, es: seq<Event>, n: nat)
    requires Inv(size, width, s) && s.consumer.Reading? && |s.consumer.got| + n <= width
    requires Part(es, false) == Repeat(ReadWord, n)
    ensures var t := Exec(width, s, es);
      && Inv(size, width, t)
      && t.consumer.Reading? && |t.consumer.got| == |s.consumer.got| + n
      && t.delivered == s.delivered && s.accepted <= t.accepted
    decreases |es|
  {
    hide Step, Inv;
    if es != [] {
      var front, e := es[..|es| - 1], es[|es| - 1];
      if !OfProducer(e) {
        assert n > 0 by { assert Part(es, false) != []; }
        assert Repeat(ReadWord, n)[..n - 1] == Repeat(ReadWord, n - 1);
        assert Part(front, false) == Part(es, false)[..n - 1];
        assert e == Part(es, false)[n - 1];
        ReadsAdvance(size, width, s, front, n - 1);
        ReadStep(size, width, Exec(width, s, front));
      } else {
        ReadsAdvance(size, width, s, front, n);
        ProducerStep(width, Exec(width, s, front), e);
      }
      StepInv(size, width, Exec(width, s, front), e);
    } else {
      assert |Repeat(ReadWord, n)| == n;
    }
  }

  lemma {:induction false} IdleReads(width: nat, s: State, es: seq<Event>, n: nat)
    requires s.consumer.ConsumerIdle? && Part(es, false) == Repeat(ReadWord, n)
    ensures var t := Exec(width, s, es);
      t.consumer == s.consumer && t.delivered == s.delivered && s.accepted <= t.accepted
    decreases |es|
  {
    if es != [] {
      var front, e := es[..|es| - 1], es[|es| - 1];
      if !OfProducer(e) {
        assert n > 0 by { assert Part(es, false) != []; }
        assert Repeat(ReadWord, n)[..n - 1] == Repeat(ReadWord, n - 1);
        assert Part(front, false) == Part(es, false)[..n - 1];
        assert e == Part(es, false)[n - 1];
        IdleReads(width, s, front, n - 1);
      } else {
        hide Step;
        IdleReads(width, s, front, n);
        ProducerStep(width, Exec(width, s, front), e);
      }
    }
  }

  function Looked(width: nat, s: State, a: seq<Event>): State {
    Exec(width, Step(width, s, BeginDequeue), a)
  }

  /** The run of a dequeue, with steps of the producer in between. */
  function Dequeued(width: nat, s: State, a: seq<Event>, pos: nat, b: seq<Event>): State {
    Step(width, Exec(width, Step(width, Looked(width, s, a), CheckEmpty(pos)), b), PublishTail)
  }

  lemma BeginDequeueEffect(size: nat, width: nat, s: State)
    requires Inv(size, width, s) && s.consumer.ConsumerIdle?
    ensures var t := Step(width, s, BeginDequeue);
      t.consumer.Looking? && t.delivered == s.delivered && t.accepted == s.accepted
  {
    hide Contents, ProducerOk;
  }

  lemma CheckEmptyEffect(size: nat, width: nat, s: State, pos: nat)
    requires Inv(size, width, s) && s.consumer.Looking? && s.headView <= pos < |s.heads|
    ensures var t := Step(width, s, CheckEmpty(pos));
      && t.delivered == s.delivered && t.accepted == s.accepted
      && t.consumer == if pos > |s.delivered| then Reading(s.consumer.tail, []) else ConsumerIdle
  {
    hide Contents, ProducerOk;
    EmptyTest(size, s, pos);
  }

  lemma PublishTailEffect(size: nat, width: nat, s: State)
    requires Inv(size, width, s)
    ensures var t := Step(width, s, PublishTail);
      && t.accepted == s.accepted
      && (s.consumer.Reading? && |s.consumer.got| == width ==>
           && |s.delivered| < |s.accepted|
           && t.delivered == s.delivered + [s.accepted[|s.delivered|]] && t.consumer.ConsumerIdle?)
      && (s.consumer.ConsumerIdle? ==> t == s)
  {
    hide Contents, ProducerOk, Lags;
    if s.consumer.Reading? && |s.consumer.got| == width {
      assert s.consumer.got == s.accepted[|s.delivered|][..width] == s.accepted[|s.delivered|];
    }
  }

  /** A dequeue delivers the next accepted item exactly when the head it reads
      shows one; otherwise it delivers nothing.  Either way the consumer is idle
      again.  The producer may do anything meanwhile. */
  lemma DequeueCompletes(size: nat, width: nat, buffer: seq<Item>, s: State, a: seq<Event>, pos: nat, b: seq<Event>)
    requires Reachable(size, width, buffer, s) && s.consumer.ConsumerIdle?
    requires Part(a, false) == [] && Part(b, false) == Repeat(ReadWord, width)
    requires var c := Looked(width, s, a); c.headView <= pos < |c.heads|
    ensures var t := Dequeued(width, s, a, pos, b);
      && t.consumer.ConsumerIdle?
      && (pos > |s.delivered| ==>
           && |s.delivered| < |t.accepted|
           && t.delivered == s.delivered + [t.accepted[|s.delivered|]])
      && (pos <= |s.delivered| ==> t.delivered == s.delivered)
      && s.accepted <= t.accepted && |t.tails| == |t.delivered| + 1
  {
    hide Exec, Step, Inv, Repeat, Part;
    ReachableInv(size, width, buffer, s);
    BeginDequeueEffect(size, width, s);
    var begun, c := Step(width, s, BeginDequeue), Looked(width, s, a);
    StepInv(size, width, s, BeginDequeue);
    ExecInv(size, width, begun, a);
    ProducerRun(width, begun, a);
    CheckEmptyEffect(size, width, c, pos);
    var d := Step(width, c, CheckEmpty(pos));
    StepInv(size, width, c, CheckEmpty(pos));
    ExecInv(size, width, d, b);
    if pos > |s.delivered| {
      ReadsAdvance(size, width, d, b, width);
    } else {
      IdleReads(width, d, b, width);
    }
    PublishTailEffect(size, width, Exec(width, d, b));
    StepInv(size, width, Exec(width, d, b), PublishTail);
    HeadsCount(size, width, Dequeued(width, s, a, pos, b));
  }
}
