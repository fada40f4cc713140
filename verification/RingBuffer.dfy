/** The single-producer single-consumer ring buffer with its operations split
    into loads, word-by-word copies and stores.  Each side may read any value
    of the other side's index that is not older than the last one it saw, as
    acquire and release allow.  An item is `width` machine words. */
module RingBufferProtocol {
  import opened Arith

  type Word = int
  type Item = seq<Word>

  datatype Producer =
    | ProducerIdle
    | Checking(item: Item, head: nat)
    | Writing(item: Item, head: nat, copied: nat)

  datatype Consumer =
    | ConsumerIdle
    | Looking(tail: nat)
    | Reading(tail: nat, got: Item)

  /** `heads` and `tails` are the modification orders of the two atomics; the
      views are the positions each side last read in the other's. */
  datatype State = State(
    buffer: seq<Item>,
    heads: seq<nat>, tails: seq<nat>,
    tailView: nat, headView: nat,
    producer: Producer, consumer: Consumer,
    accepted: seq<Item>, delivered: seq<Item>)

  datatype Event =
    | BeginEnqueue(item: Item)
    | CheckFull(pos: nat)
    | WriteWord
    | PublishHead
    | BeginDequeue
    | CheckEmpty(pos: nat)
    | ReadWord
    | PublishTail

  function Init(buffer: seq<Item>): State {
    State(buffer, [0], [0], 0, 0, ProducerIdle, ConsumerIdle, [], [])
  }

  function Last(s: seq<nat>): nat
    requires s != []
  {
    s[|s| - 1]
  }

  predicate Enabled(width: nat, s: State, e: Event) {
    match e
    case BeginEnqueue(item) => s.producer.ProducerIdle? && s.heads != [] && |item| == width
    case CheckFull(pos) => s.producer.Checking? && s.tailView <= pos < |s.tails| && s.buffer != []
    case WriteWord =>
      && s.producer.Writing? && s.producer.copied < width
      && s.producer.head < |s.buffer| && width == |s.producer.item| == |s.buffer[s.producer.head]|
    case PublishHead => s.producer.Writing? && s.producer.copied == width && s.buffer != []
    case BeginDequeue => s.consumer.ConsumerIdle? && s.tails != []
    case CheckEmpty(pos) => s.consumer.Looking? && s.headView <= pos < |s.heads|
    case ReadWord =>
      && s.consumer.Reading? && |s.consumer.got| < width
      && s.consumer.tail < |s.buffer| && |s.buffer[s.consumer.tail]| == width
    case PublishTail => s.consumer.Reading? && |s.consumer.got| == width && s.buffer != []
  }

  /** One step of either side; an event that is not enabled changes nothing. */
  function Step(width: nat, s: State, e: Event): State {
    if !Enabled(width, s, e) then s else
    match e
    case BeginEnqueue(item) => s.(producer := Checking(item, Last(s.heads)))
    case CheckFull(pos) =>
      var next := (s.producer.head + 1) % |s.buffer|;
      s.(tailView := pos,
         producer := if next == s.tails[pos] then ProducerIdle else Writing(s.producer.item, s.producer.head, 0))
    case WriteWord =>
      var p := s.producer;
      s.(buffer := s.buffer[p.head := s.buffer[p.head][p.copied := p.item[p.copied]]],
         producer := p.(copied := p.copied + 1))
    case PublishHead =>
      s.(heads := s.heads + [(s.producer.head + 1) % |s.buffer|],
         accepted := s.accepted + [s.producer.item],
         producer := ProducerIdle)
    case BeginDequeue => s.(consumer := Looking(Last(s.tails)))
    case CheckEmpty(pos) =>
      s.(headView := pos,
         consumer := if s.consumer.tail == s.heads[pos] then ConsumerIdle else Reading(s.consumer.tail, []))
    case ReadWord =>
      var c := s.consumer;
      s.(consumer := c.(got := c.got + [s.buffer[c.tail][|c.got|]]))
    case PublishTail =>
      s.(tails := s.tails + [(s.consumer.tail + 1) % |s.buffer|],
         delivered := s.delivered + [s.consumer.got],
         consumer := ConsumerIdle)
  }

  function Exec(width: nat, s: State, es: seq<Event>): State {
    if es == [] then s
    else Step(width, Exec(width, s, es[..|es| - 1]), es[|es| - 1])
  }

  // ---- Invariant ----

  /** Number of items published, and number of slots given back. */
  function Published(s: State): nat { |s.accepted| }
  function Returned(s: State): nat { |s.delivered| }

  ghost predicate Indices(size: nat, hist: seq<nat>, n: nat)
    requires size > 0
  {
    |hist| == n + 1 && forall k | 0 <= k <= n :: hist[k] == k % size
  }

  /** Each side's view lags, but not by more than a full buffer. */
  ghost predicate Lags(size: nat, s: State) {
    && s.tailView <= Returned(s) <= s.headView <= Published(s)
    && Published(s) + 1 <= s.tailView + size
  }

  ghost predicate Contents(size: nat, width: nat, s: State)
    requires size > 0 && |s.buffer| == size
  {
    && (forall k | 0 <= k < size :: |s.buffer[k]| == width)
    && (forall i | 0 <= i < Published(s) :: |s.accepted[i]| == width)
    && (forall i | Returned(s) <= i < Published(s) :: s.buffer[i % size] == s.accepted[i])
  }

  ghost predicate ProducerOk(size: nat, width: nat, s: State)
    requires size > 0 && |s.buffer| == size
  {
    match s.producer
    case ProducerIdle => true
    case Checking(item, head) => |item| == width && head == Published(s) % size
    case Writing(item, head, copied) =>
      && |item| == width && copied <= width && head == Published(s) % size
      && Published(s) + 1 < s.tailView + size
      && |s.buffer[head]| == width && s.buffer[head][..copied] == item[..copied]
  }

  ghost predicate ConsumerOk(size: nat, width: nat, s: State)
    requires size > 0
  {
    match s.consumer
    case ConsumerIdle => true
    case Looking(tail) => tail == Returned(s) % size
    case Reading(tail, got) =>
      && tail == Returned(s) % size && Returned(s) < s.headView && Returned(s) < Published(s)
      && |got| <= width == |s.accepted[Returned(s)]| && got == s.accepted[Returned(s)][..|got|]
  }

  ghost predicate Inv(size: nat, width: nat, s: State) {
    && size > 0 && |s.buffer| == size
    && Indices(size, s.heads, Published(s))
    && Indices(size, s.tails, Returned(s))
    && Lags(size, s)
    && s.delivered == s.accepted[..Returned(s)]
    && Contents(size, width, s)
    && ProducerOk(size, width, s)
    && ConsumerOk(size, width, s)
  }

  // ---- Preservation ----

  /** The test `next_head == tail` on a stale view says exactly that the view is a full buffer behind. */
  lemma FullTest(size: nat, s: State, pos: nat)
    requires size > 0 && Indices(size, s.heads, Published(s)) && Indices(size, s.tails, Returned(s))
    requires Lags(size, s) && s.tailView <= pos < |s.tails|
    ensures (Published(s) % size + 1) % size == s.tails[pos] <==> Published(s) + 1 == pos + size
  {
    ModSucc(Published(s), size);
    ModPeriod(pos, size);
    var a := Published(s) + 1;
    if a < pos + size {
      ModDistinct(pos, a, size);
    }
  }

  /** The test `tail == head` on a stale view says exactly that the view shows nothing to read. */
  lemma EmptyTest(size: nat, s: State, pos: nat)
    requires size > 0 && Indices(size, s.heads, Published(s)) && Lags(size, s)
    requires s.headView <= pos < |s.heads|
    ensures Returned(s) % size == s.heads[pos] <==> Returned(s) == pos
  {
    ModDistinct(Returned(s), pos, size);
  }

  lemma InitInv(size: nat, width: nat, buffer: seq<Item>)
    requires size > 0 && |buffer| == size && forall k | 0 <= k < size :: |buffer[k]| == width
    ensures Inv(size, width, Init(buffer))
  {}

  lemma CheckFullInv(size: nat, width: nat, s: State, pos: nat)
    requires Inv(size, width, s) && Enabled(width, s, CheckFull(pos))
    ensures Inv(size, width, Step(width, s, CheckFull(pos)))
  {
    FullTest(size, s, pos);
  }

  lemma CheckEmptyInv(size: nat, width: nat, s: State, pos: nat)
    requires Inv(size, width, s) && Enabled(width, s, CheckEmpty(pos))
    ensures Inv(size, width, Step(width, s, CheckEmpty(pos)))
  {
    EmptyTest(size, s, pos);
  }

  lemma WriteWordInv(size: nat, width: nat, s: State)
    requires Inv(size, width, s) && Enabled(width, s, WriteWord)
    ensures Inv(size, width, Step(width, s, WriteWord))
  {
    forall i | Returned(s) <= i < Published(s) ensures i % size != s.producer.head {
      ModDistinct(i, Published(s), size);
    }
  }

  lemma PublishHeadInv(size: nat, width: nat, s: State)
    requires Inv(size, width, s) && Enabled(width, s, PublishHead)
    ensures Inv(size, width, Step(width, s, PublishHead))
  {
    var p := s.producer;
    ModSucc(Published(s), size);
    assert s.buffer[p.head] == s.buffer[p.head][..width] == p.item[..width] == p.item;
  }

  lemma ReadWordInv(size: nat, width: nat, s: State)
    requires Inv(size, width, s) && Enabled(width, s, ReadWord)
    ensures Inv(size, width, Step(width, s, ReadWord))
  {
    var item, n := s.accepted[Returned(s)], |s.consumer.got|;
    assert item[..n + 1] == item[..n] + [item[n]];
  }

  lemma PublishTailInv(size: nat, width: nat, s: State)
    requires Inv(size, width, s) && Enabled(width, s, PublishTail)
    ensures Inv(size, width, Step(width, s, PublishTail))
  {
    var n := Returned(s);
    ModSucc(n, size);
    assert s.consumer.got == s.accepted[n][..width] == s.accepted[n];
    assert s.accepted[..n + 1] == s.accepted[..n] + [s.accepted[n]];
  }

  lemma StepInv(size: nat, width: nat, s: State, e: Event)
    requires Inv(size, width, s)
    ensures Inv(size, width, Step(width, s, e))
  {
    if Enabled(width, s, e) {
      match e
      case CheckFull(pos) => CheckFullInv(size, width, s, pos);
      case WriteWord => WriteWordInv(size, width, s);
      case PublishHead => PublishHeadInv(size, width, s);
      case CheckEmpty(pos) => CheckEmptyInv(size, width, s, pos);
      case ReadWord => ReadWordInv(size, width, s);
      case PublishTail => PublishTailInv(size, width, s);
      case BeginEnqueue(_) =>
      case BeginDequeue =>
    }
  }

  lemma {:induction false} ExecInv(size: nat, width: nat, s: State, es: seq<Event>)
    requires Inv(size, width, s)
    ensures Inv(size, width, Exec(width, s, es))
    decreases |es|
  {
    if es != [] {
      ExecInv(size, width, s, es[..|es| - 1]);
      StepInv(size, width, Exec(width, s, es[..|es| - 1]), es[|es| - 1]);
    }
  }

  // ---- Guarantees over every run ----

  /** The freshly mapped buffer: `size` slots of `width` words, content unknown. */
  ghost predicate Mapped(size: nat, width: nat, buffer: seq<Item>) {
    size > 0 && |buffer| == size && forall k | 0 <= k < size :: |buffer[k]| == width
  }

  /** What lies between tail and head, oldest first. */
  ghost function InFlight(s: State): seq<Item>
    requires s.buffer != [] && Returned(s) <= Published(s)
  {
    seq(Published(s) - Returned(s), k requires 0 <= k => s.buffer[(Returned(s) + k) % |s.buffer|])
  }

  /** Refinement to a bounded FIFO: what was accepted is what was delivered
      followed by the buffer's content, and the content never exceeds size - 1. */
  lemma Fifo(size: nat, width: nat, buffer: seq<Item>, es: seq<Event>)
    requires Mapped(size, width, buffer)
    ensures var s := Exec(width, Init(buffer), es);
      && s.buffer != [] && Returned(s) <= Published(s)
      && s.accepted == s.delivered + InFlight(s)
      && |InFlight(s)| <= size - 1
  {
    var s := Exec(width, Init(buffer), es);
    InitInv(size, width, buffer);
    ExecInv(size, width, Init(buffer), es);
    assert s.accepted == s.accepted[..Returned(s)] + s.accepted[Returned(s)..];
    assert InFlight(s) == s.accepted[Returned(s)..];
  }

  /** Slot ownership: while the producer is writing and the consumer copying,
      they are in different slots, and each has seen the store by which the
      other side gave its slot away: tail store number `tailView` comes after
      the last read of the producer's slot, head store number `headView` after
      the write of the consumer's. */
  lemma NoSharedSlot(size: nat, width: nat, buffer: seq<Item>, es: seq<Event>)
    requires Mapped(size, width, buffer)
    ensures var s := Exec(width, Init(buffer), es);
      && (s.producer.Writing? && s.consumer.Reading? ==> s.producer.head != s.consumer.tail)
      && (s.producer.Writing? ==> Published(s) < s.tailView + size)
      && (s.consumer.Reading? ==> Returned(s) < s.headView)
  {
    var s := Exec(width, Init(buffer), es);
    InitInv(size, width, buffer);
    ExecInv(size, width, Init(buffer), es);
    if s.producer.Writing? && s.consumer.Reading? {
      ModDistinct(Returned(s), Published(s), size);
    }
  }

  /** No torn item: the words copied so far are those of one accepted item. */
  lemma NeverTorn(size: nat, width: nat, buffer: seq<Item>, es: seq<Event>)
    requires Mapped(size, width, buffer)
    ensures var s := Exec(width, Init(buffer), es);
      && (forall i | 0 <= i < |s.delivered| :: i < |s.accepted| && s.delivered[i] == s.accepted[i])
      && (s.consumer.Reading? ==>
           && |s.delivered| < |s.accepted|
           && s.consumer.got <= s.accepted[|s.delivered|])
  {
    InitInv(size, width, buffer);
    ExecInv(size, width, Init(buffer), es);
  }

  /** An enqueue is refused exactly when the tail value it read shows size - 1
      items; with the newest tail that is exactly when the buffer is full.  A
      dequeue comes back empty exactly when the head value it read shows nothing. */
  lemma RefusalsExact(size: nat, width: nat, buffer: seq<Item>, es: seq<Event>, pos: nat)
    requires Mapped(size, width, buffer)
    ensures var s := Exec(width, Init(buffer), es);
      && (Enabled(width, s, CheckFull(pos)) ==>
           (Step(width, s, CheckFull(pos)).producer.ProducerIdle? <==> Published(s) - pos == size - 1))
      && (Enabled(width, s, CheckEmpty(pos)) ==>
           (Step(width, s, CheckEmpty(pos)).consumer.ConsumerIdle? <==> pos == Returned(s)))
  {
    var s := Exec(width, Init(buffer), es);
    InitInv(size, width, buffer);
    ExecInv(size, width, Init(buffer), es);
    hide Inv, Exec;
    if Enabled(width, s, CheckFull(pos)) { RefusedExactly(size, width, s, pos); }
    if Enabled(width, s, CheckEmpty(pos)) { EmptyExactly(size, width, s, pos); }
  }

  lemma RefusedExactly(size: nat, width: nat, s: State, pos: nat)
    requires Inv(size, width, s) && Enabled(width, s, CheckFull(pos))
    ensures Step(width, s, CheckFull(pos)).producer.ProducerIdle? <==> Published(s) - pos == size - 1
  {
    hide Contents, ConsumerOk;
    FullTest(size, s, pos);
  }

  lemma EmptyExactly(size: nat, width: nat, s: State, pos: nat)
    requires Inv(size, width, s) && Enabled(width, s, CheckEmpty(pos))
    ensures Step(width, s, CheckEmpty(pos)).consumer.ConsumerIdle? <==> pos == Returned(s)
  {
    hide Contents, ProducerOk;
    EmptyTest(size, s, pos);
  }
}

/** The same buffer as an object, each operation run without interruption. */
module RingBufferClass {
  import opened Arith

  class RingBuffer<T(0)> {
    const buffer: array<T>
    var head: nat
    var tail: nat

    ghost predicate Valid()
      reads this
    {
      head < buffer.Length && tail < buffer.Length
    }

    ghost function Contents(): (s: seq<T>)
      requires Valid()
      reads this, buffer
    {
      if head >= tail then buffer[tail..head] else buffer[tail..] + buffer[..head]
    }

    constructor (size: nat)
      requires size > 0
      ensures Valid() && buffer.Length == size && Contents() == []
    {
      buffer := new T[size];
      head, tail := 0, 0;
    }

    method TryEnqueue(item: T) returns (ok: bool)
      requires Valid()
      modifies `head, buffer
      ensures Valid()
      ensures ok <==> |old(Contents())| < buffer.Length - 1
      ensures Contents() == if ok then old(Contents()) + [item] else old(Contents())
    {
      hide Next;
      NextIndex(head, buffer.Length);
      var nextHead := Next(head, buffer.Length);
      if nextHead == tail {
        return false;
      }
      ghost var was := Contents();
      buffer[head] := item;
      head := nextHead;
      if old(head) < tail {
        assert buffer[..head] == old(buffer[..head]) + [item];
        assert buffer[tail..] == old(buffer[tail..]);
      } else if nextHead == 0 {
        assert buffer[tail..] == was + [item];
      } else {
        assert buffer[tail..head] == was + [item];
      }
      return true;
    }

    /** `slot` is the caller's variable, overwritten only on success. */
    method TryDequeue(slot: T) returns (ok: bool, item: T)
      requires Valid()
      modifies `tail
      ensures Valid()
      ensures ok <==> old(Contents()) != []
      ensures ok ==> old(Contents()) == [item] + Contents()
      ensures !ok ==> Contents() == old(Contents()) && item == slot
    {
      hide Next;
      NextIndex(tail, buffer.Length);
      if tail == head {
        return false, slot;
      }
      ghost var was := Contents();
      item := buffer[tail];
      tail := Next(tail, buffer.Length);
      if head >= tail && head > old(tail) {
        assert was == [item] + Contents();
      } else if tail == 0 {
        assert buffer[old(tail)..] == [item];
        assert was == [item] + buffer[..head];
      } else {
        assert buffer[old(tail)..] == [item] + buffer[tail..];
      }
      return true, item;
    }
  }

  function Next(i: nat, size: nat): nat
    requires size > 0
  {
    (i + 1) % size
  }

  lemma NextIndex(i: nat, size: nat)
    requires i < size
    ensures Next(i, size) == if i + 1 == size then 0 else i + 1
  {
    if i + 1 == size { ModUnique(i + 1, 1, 0, size); } else { ModUnique(i + 1, 0, i + 1, size); }
  }
}
