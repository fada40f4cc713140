/** `RedisPubSub`: any number of threads call `publish` under the queue lock;
    one loop collects batches under the same lock and pipelines them. */
module PubSub {
  import opened Arith

  datatype Message = Message(seqNum: nat, channel: string, payload: string)

  /** `message_queue_` and `next_seq_`, the loop's `batch`, the commands put in
      the current pipeline, and everything executed so far. */
  datatype State = State(queue: seq<Message>, nextSeq: nat, batch: seq<Message>, pipe: seq<Message>, sent: seq<Message>)

  datatype Event =
    | Publish(msg: Message)
    | Collect
    | PipeOne
    | ExecPipe

  function Init(): State { State([], 0, [], [], []) }

  function Room(batchSize: nat, s: State): nat {
    if |s.batch| < batchSize then Min(batchSize - |s.batch|, |s.queue|) else 0
  }

  /** The loop's position is determined by its batch: empty means it is at the
      top, otherwise `pipe` says how far it has got. */
  function Step(batchSize: nat, s: State, e: Event): State {
    match e
    case Publish(msg) => s.(queue := s.queue + [msg.(seqNum := s.nextSeq)], nextSeq := s.nextSeq + 1)
    case Collect =>
      if s.batch != [] then s else
      var n := Room(batchSize, s);
      s.(batch := s.batch + s.queue[..n], queue := s.queue[n..])
    case PipeOne =>
      if |s.pipe| < |s.batch| then s.(pipe := s.pipe + [s.batch[|s.pipe|]]) else s
    case ExecPipe =>
      if s.batch != [] && |s.pipe| == |s.batch| then s.(sent := s.sent + s.pipe, pipe := [], batch := []) else s
  }

  function Exec(batchSize: nat, s: State, es: seq<Event>): State {
    if es == [] then s
    else Step(batchSize, Exec(batchSize, s, es[..|es| - 1]), es[|es| - 1])
  }

  /** The messages handed to `publish`, in lock order, numbered from 0. */
  function Accepted(es: seq<Event>): seq<Message> {
    if es == [] then []
    else
      var before := Accepted(es[..|es| - 1]);
      match es[|es| - 1]
      case Publish(msg) => before + [msg.(seqNum := |before|)]
      case _ => before
  }

  ghost predicate Inv(batchSize: nat, s: State, accepted: seq<Message>) {
    && s.sent + s.batch + s.queue == accepted
    && s.nextSeq == |accepted|
    && |s.batch| <= batchSize
    && s.pipe <= s.batch
  }

  lemma CollectConserves(batchSize: nat, s: State)
    ensures var t := Step(batchSize, s, Collect);
      && t.batch + t.queue == s.batch + s.queue
      && t.sent + t.batch + t.queue == s.sent + s.batch + s.queue
  {
    var t := Step(batchSize, s, Collect);
    MoveFront(s.batch, s.queue, Room(batchSize, s));
    Associative(t.sent, t.batch, t.queue);
    Associative(s.sent, s.batch, s.queue);
  }

  lemma MoveFront(a: seq<Message>, b: seq<Message>, n: nat)
    requires n <= |b|
    ensures (a + b[..n]) + b[n..] == a + b
  {}

  lemma Associative(a: seq<Message>, b: seq<Message>, c: seq<Message>)
    ensures a + b + c == a + (b + c)
  {}

  lemma StepInv(batchSize: nat, s: State, accepted: seq<Message>, e: Event)
    requires Inv(batchSize, s, accepted)
    ensures Inv(batchSize, Step(batchSize, s, e),
                if e.Publish? then accepted + [e.msg.(seqNum := |accepted|)] else accepted)
  {
    var t := Step(batchSize, s, e);
    match e
    case Publish(msg) =>
      assert t.sent + t.batch + t.queue == s.sent + s.batch + s.queue + [msg.(seqNum := s.nextSeq)];
    case Collect => CollectConserves(batchSize, s);
    case PipeOne =>
    case ExecPipe =>
      if s.batch != [] && |s.pipe| == |s.batch| {
        assert s.pipe == s.batch;
      }
  }

  lemma {:induction false} ExecInv(batchSize: nat, es: seq<Event>)
    ensures Inv(batchSize, Exec(batchSize, Init(), es), Accepted(es))
    decreases |es|
  {
    if es != [] {
      var front := es[..|es| - 1];
      ExecInv(batchSize, front);
      StepInv(batchSize, Exec(batchSize, Init(), front), Accepted(front), es[|es| - 1]);
    }
  }

  lemma {:induction false} AcceptedNumbered(es: seq<Event>)
    ensures forall i | 0 <= i < |Accepted(es)| :: Accepted(es)[i].seqNum == i
    decreases |es|
  {
    if es != [] {
      AcceptedNumbered(es[..|es| - 1]);
    }
  }

  /** Conservation and gap-freedom, for every interleaving of publishers and
      loop: nothing is lost, duplicated or reordered, the stream sent so far
      carries the numbers 0, 1, 2, ... and no pipeline exceeds the batch size. */
  lemma SentIsGapFreePrefix(batchSize: nat, es: seq<Event>)
    ensures var s := Exec(batchSize, Init(), es);
      && s.sent + s.batch + s.queue == Accepted(es)
      && (forall i | 0 <= i < |s.sent| :: s.sent[i].seqNum == i)
      && |s.pipe| <= |s.batch| <= batchSize
      && s.nextSeq == |Accepted(es)|
  {
    var s := Exec(batchSize, Init(), es);
    ExecInv(batchSize, es);
    AcceptedNumbered(es);
    forall i | 0 <= i < |s.sent| ensures s.sent[i].seqNum == i {
      assert s.sent[i] == (s.sent + s.batch + s.queue)[i];
    }
  }

  // ---- Draining ----

  function Pipes(n: nat): seq<Event> {
    if n == 0 then [] else Pipes(n - 1) + [PipeOne]
  }

  /** One turn of the loop on a queue of at least n messages, n being the batch it takes. */
  function Turn(n: nat): seq<Event> { [Collect] + Pipes(n) + [ExecPipe] }

  lemma ExecConcat(batchSize: nat, s: State, a: seq<Event>, b: seq<Event>)
    ensures Exec(batchSize, s, a + b) == Exec(batchSize, Exec(batchSize, s, a), b)
    decreases |b|
  {
    if b == [] {
      assert a + b == a;
    } else {
      assert (a + b)[..|a + b| - 1] == a + b[..|b| - 1];
      ExecConcat(batchSize, s, a, b[..|b| - 1]);
    }
  }

  lemma ExecOne(batchSize: nat, s: State, e: Event)
    ensures Exec(batchSize, s, [e]) == Step(batchSize, s, e)
  {
    assert [e][..0] == [];
    assert Exec(batchSize, s, []) == s;
  }

  lemma PipesOne(batchSize: nat, s: State)
    requires |s.pipe| < |s.batch|
    ensures Step(batchSize, s, PipeOne) == s.(pipe := s.pipe + [s.batch[|s.pipe|]])
  {}

  lemma {:induction false} PipesFill(batchSize: nat, s: State, n: nat)
    requires s.pipe == [] && n <= |s.batch|
    ensures Exec(batchSize, s, Pipes(n)) == s.(pipe := s.batch[..n])
  {
    hide Step;
    if n > 0 {
      var t := s.(pipe := s.batch[..n - 1]);
      PipesOne(batchSize, t);
      PipesFill(batchSize, s, n - 1);
      ExecConcat(batchSize, s, Pipes(n - 1), [PipeOne]);
      ExecOne(batchSize, t, PipeOne);
      assert t.pipe + [s.batch[n - 1]] == s.batch[..n];
    }
  }

  lemma CollectsBatch(batchSize: nat, s: State)
    requires s.batch == [] && batchSize > 0
    ensures var n := Min(batchSize, |s.queue|);
      Step(batchSize, s, Collect) == s.(batch := s.queue[..n], queue := s.queue[n..])
  {
    var n := Min(batchSize, |s.queue|);
    assert s.batch + s.queue[..n] == s.queue[..n];
  }

  lemma SendsBatch(batchSize: nat, s: State)
    requires s.batch != []
    ensures Step(batchSize, s.(pipe := s.batch), ExecPipe) == s.(sent := s.sent + s.batch, pipe := [], batch := [])
  {}

  lemma TurnSends(batchSize: nat, s: State)
    requires s.batch == [] && s.pipe == [] && s.queue != [] && batchSize > 0
    ensures var n := Min(batchSize, |s.queue|);
      Exec(batchSize, s, Turn(n)) == s.(sent := s.sent + s.queue[..n], queue := s.queue[n..])
  {
    hide Exec, Step;
    var n := Min(batchSize, |s.queue|);
    var s1 := s.(batch := s.queue[..n], queue := s.queue[n..]);
    CollectsBatch(batchSize, s);
    SendsBatch(batchSize, s1);
    ExecOne(batchSize, s, Collect);
    ExecConcat(batchSize, s, [Collect], Pipes(n));
    PipesFill(batchSize, s1, n);
    assert s1.batch[..n] == s1.batch;
    ExecConcat(batchSize, s, [Collect] + Pipes(n), [ExecPipe]);
    ExecOne(batchSize, s1.(pipe := s1.batch), ExecPipe);
  }

  /** Turns of the loop one after the other, given by the batches they take. */
  function Turns(ns: seq<nat>): seq<Event> {
    if ns == [] then [] else Turn(ns[0]) + Turns(ns[1..])
  }

  /** Left alone, the loop empties the queue in exactly ceil(length / batch_size)
      turns, each taking between one message and a full batch. */
  lemma {:induction false} LoopDrains(batchSize: nat, s: State) returns (ns: seq<nat>)
    requires batchSize > 0 && s.batch == [] && s.pipe == []
    ensures Exec(batchSize, s, Turns(ns)) == s.(sent := s.sent + s.queue, queue := [])
    ensures |ns| == CeilDiv(|s.queue|, batchSize)
    ensures forall i | 0 <= i < |ns| :: 1 <= ns[i] <= batchSize
    decreases |s.queue|
  {
    hide Turn, CeilDiv, Step;
    if s.queue == [] {
      ns := [];
      assert s.sent + s.queue == s.sent;
      CeilDivUnique(0, batchSize, 0);
    } else {
      var n := Min(batchSize, |s.queue|);
      var rest := LoopDrains(batchSize, s.(sent := s.sent + s.queue[..n], queue := s.queue[n..]));
      ns := [n] + rest;
      TurnThenRest(batchSize, s, n, rest);
      CeilDivPeel(|s.queue|, batchSize);
    }
  }

  lemma TurnThenRest(batchSize: nat, s: State, n: nat, rest: seq<nat>)
    requires s.batch == [] && s.pipe == [] && s.queue != [] && batchSize > 0 && n == Min(batchSize, |s.queue|)
    requires var t := s.(sent := s.sent + s.queue[..n], queue := s.queue[n..]);
      Exec(batchSize, t, Turns(rest)) == t.(sent := t.sent + t.queue, queue := [])
    ensures Exec(batchSize, s, Turns([n] + rest)) == s.(sent := s.sent + s.queue, queue := [])
  {
    hide Exec, Turn, Turns;
    TurnSends(batchSize, s);
    TurnsHead(n, rest);
    ExecConcat(batchSize, s, Turn(n), Turns(rest));
    assert s.sent + s.queue == s.sent + s.queue[..n] + s.queue[n..] by {
      assert s.queue == s.queue[..n] + s.queue[n..];
    }
  }

  lemma TurnsHead(n: nat, rest: seq<nat>)
    ensures Turns([n] + rest) == Turn(n) + Turns(rest)
  {
    assert ([n] + rest)[1..] == rest;
  }

  // ---- The object ----

  class RedisPubSub {
    const batchSize: nat
    var messageQueue: seq<Message>
    var nextSeq: nat
    var batch: seq<Message>
    var sent: seq<Message>

    ghost function View(): State
      reads this
    {
      State(messageQueue, nextSeq, batch, [], sent)
    }

    constructor (batchSize: nat)
      ensures View() == Init() && this.batchSize == batchSize
    {
      this.batchSize := batchSize;
      messageQueue, nextSeq, batch, sent := [], 0, [], [];
    }

    method PublishMessage(msg: Message)
      modifies `messageQueue, `nextSeq
      ensures View() == Step(batchSize, old(View()), Publish(msg))
    {
      var numbered := msg.(seqNum := nextSeq);
      nextSeq := nextSeq + 1;
      messageQueue := messageQueue + [numbered];
    }

    /** The locked part of the publisher loop. */
    method CollectBatch()
      requires batch == []
      modifies `messageQueue, `batch
      ensures View() == Step(batchSize, old(View()), Collect)
    {
      ghost var n := Room(batchSize, View());
      while |batch| < batchSize && messageQueue != []
        invariant |batch| <= n
        invariant batch == old(messageQueue)[..|batch|] && messageQueue == old(messageQueue)[|batch|..]
        decreases |messageQueue|
      {
        batch := batch + [messageQueue[0]];
        messageQueue := messageQueue[1..];
      }
      assert batch == [] + old(messageQueue)[..n];
    }

    /** The unlocked part: one pipeline command a message, then `exec` and `clear`. */
    method SendBatch() returns (pipe: seq<Message>)
      requires batch != []
      modifies `batch, `sent
      ensures pipe == old(batch)
      ensures View() == Step(batchSize, old(View()).(pipe := pipe), ExecPipe)
    {
      pipe := [];
      for i := 0 to |batch|
        invariant pipe == batch[..i] && batch == old(batch) && sent == old(sent)
      {
        pipe := pipe + [batch[i]];
      }
      sent := sent + pipe;
      batch := [];
    }
  }
}
