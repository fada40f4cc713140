/** `AsyncDBWriter`: callers enqueue under a lock; one worker swaps the whole
    queue out and works through it, dropping an operation whose write throws. */
module DbWriter {

  datatype Operation = Operation(query: string, params: seq<seq<string>>)

  /** `attempted` records each operation the worker took up and whether its
      transaction committed. */
  datatype State = State(queue: seq<Operation>, local: seq<Operation>, attempted: seq<(Operation, bool)>)

  datatype Event =
    | Enqueue(op: Operation)
    | Swap
    | Attempt(committed: bool)

  function Init(): State { State([], [], []) }

  function Step(s: State, e: Event): State {
    match e
    case Enqueue(op) => s.(queue := s.queue + [op])
    case Swap => if s.local == [] then s.(local := s.queue, queue := []) else s
    case Attempt(committed) =>
      if s.local == [] then s
      else s.(local := s.local[1..], attempted := s.attempted + [(s.local[0], committed)])
  }

  function Exec(s: State, es: seq<Event>): State {
    if es == [] then s else Step(Exec(s, es[..|es| - 1]), es[|es| - 1])
  }

  function Enqueued(es: seq<Event>): seq<Operation> {
    if es == [] then []
    else if es[|es| - 1].Enqueue? then Enqueued(es[..|es| - 1]) + [es[|es| - 1].op]
    else Enqueued(es[..|es| - 1])
  }

  function Ops(log: seq<(Operation, bool)>): seq<Operation> {
    seq(|log|, i requires 0 <= i < |log| => log[i].0)
  }

  /** The operations that reached the database, in order. */
  function Committed(log: seq<(Operation, bool)>): seq<Operation> {
    if log == [] then []
    else if log[|log| - 1].1 then Committed(log[..|log| - 1]) + [log[|log| - 1].0]
    else Committed(log[..|log| - 1])
  }

  /** Conservation: each operation is attempted once, in enqueue order. */
  lemma {:induction false} AttemptsInOrder(es: seq<Event>)
    ensures var s := Exec(Init(), es);
      Ops(s.attempted) + s.local + s.queue == Enqueued(es)
    decreases |es|
  {
    if es != [] {
      var s, e := Exec(Init(), es[..|es| - 1]), es[|es| - 1];
      AttemptsInOrder(es[..|es| - 1]);
      var t := Step(s, e);
      match e
      case Enqueue(op) =>
        assert Ops(t.attempted) + t.local + t.queue == Ops(s.attempted) + s.local + s.queue + [op];
      case Swap =>
        if s.local == [] {
          assert Ops(t.attempted) + t.local + t.queue == Ops(s.attempted) + s.local + s.queue;
        }
      case Attempt(committed) =>
        if s.local != [] {
          assert Ops(t.attempted) == Ops(s.attempted) + [s.local[0]];
          assert Ops(t.attempted) + t.local == Ops(s.attempted) + s.local;
        }
    }
  }

  ghost predicate Subsequence<T>(a: seq<T>, b: seq<T>)
    decreases |b|
  {
    a == [] ||
    (b != [] && (Subsequence(a, b[..|b| - 1])
                 || (a[|a| - 1] == b[|b| - 1] && Subsequence(a[..|a| - 1], b[..|b| - 1]))))
  }

  lemma {:induction false} SubsequenceExtends<T>(a: seq<T>, b: seq<T>, c: seq<T>)
    requires Subsequence(a, b)
    ensures Subsequence(a, b + c)
    decreases |c|
  {
    if c == [] {
      assert b + c == b;
    } else {
      assert (b + c)[..|b + c| - 1] == b + c[..|c| - 1];
      SubsequenceExtends(a, b, c[..|c| - 1]);
    }
  }

  lemma {:induction false} CommittedIsSubsequence(log: seq<(Operation, bool)>)
    ensures Subsequence(Committed(log), Ops(log))
    decreases |log|
  {
    if log != [] {
      CommittedIsSubsequence(log[..|log| - 1]);
      assert Ops(log)[..|log| - 1] == Ops(log[..|log| - 1]);
    }
  }

  /** Failed writes leave holes but never reorder or duplicate what is stored. */
  lemma StoredInOrder(es: seq<Event>)
    ensures Subsequence(Committed(Exec(Init(), es).attempted), Enqueued(es))
  {
    var s := Exec(Init(), es);
    AttemptsInOrder(es);
    CommittedIsSubsequence(s.attempted);
    SubsequenceExtends(Committed(s.attempted), Ops(s.attempted), s.local + s.queue);
    assert Ops(s.attempted) + (s.local + s.queue) == Enqueued(es);
  }

  // ---- One round of the worker ----

  function Attempts(outcome: nat -> bool, n: nat): seq<Event> {
    if n == 0 then [] else Attempts(outcome, n - 1) + [Attempt(outcome(n - 1))]
  }

  /** The queue is swapped out and its n operations are attempted one by one. */
  function Round(outcome: nat -> bool, n: nat): seq<Event> {
    [Swap] + Attempts(outcome, n)
  }

  /** The operations with the fate of their transactions. */
  function Outcomes(ops: seq<Operation>, outcome: nat -> bool): seq<(Operation, bool)> {
    seq(|ops|, i requires 0 <= i < |ops| => (ops[i], outcome(i)))
  }

  lemma {:induction false} AttemptsRun(s: State, outcome: nat -> bool, n: nat)
    requires n <= |s.local|
    ensures Exec(s, Attempts(outcome, n))
         == s.(local := s.local[n..], attempted := s.attempted + Outcomes(s.local[..n], outcome))
  {
    if n == 0 {
      assert s.attempted + Outcomes(s.local[..0], outcome) == s.attempted;
    } else {
      AttemptsRun(s, outcome, n - 1);
      var es := Attempts(outcome, n);
      assert es[..|es| - 1] == Attempts(outcome, n - 1);
      assert Outcomes(s.local[..n], outcome)
          == Outcomes(s.local[..n - 1], outcome) + [(s.local[n - 1], outcome(n - 1))];
    }
  }

  lemma {:induction false} ExecHead(s: State, e: Event, es: seq<Event>)
    ensures Exec(s, [e] + es) == Exec(Step(s, e), es)
    decreases |es|
  {
    if es == [] {
      assert [e] + es == [e] && [e][..0] == [];
      assert Exec(s, []) == s;
    } else {
      assert ([e] + es)[..|es|] == [e] + es[..|es| - 1];
      ExecHead(s, e, es[..|es| - 1]);
    }
  }

  /** From an idle worker one round empties the queue and attempts all of it, in
      order, each operation with its own fate. */
  lemma RoundDrains(s: State, outcome: nat -> bool)
    requires s.local == []
    ensures Exec(s, Round(outcome, |s.queue|))
         == State([], [], s.attempted + Outcomes(s.queue, outcome))
  {
    ExecHead(s, Swap, Attempts(outcome, |s.queue|));
    AttemptsRun(Step(s, Swap), outcome, |s.queue|);
  }

  lemma {:induction false} CommittedAppend(log: seq<(Operation, bool)>, op: Operation, committed: bool)
    ensures Committed(log + [(op, committed)]) == if committed then Committed(log) + [op] else Committed(log)
  {
    assert (log + [(op, committed)])[..|log|] == log;
  }

  class AsyncDBWriter {
    var queue: seq<Operation>
    var attempted: seq<(Operation, bool)>

    constructor ()
      ensures queue == [] && attempted == []
    {
      queue, attempted := [], [];
    }

    method EnqueueOperation(op: Operation)
      modifies `queue
      ensures State(queue, [], attempted) == Step(old(State(queue, [], attempted)), Enqueue(op))
    {
      queue := queue + [op];
    }

    /** One round of the worker; `outcome` says which transactions commit. */
    method WorkOnce(outcome: nat -> bool)
      modifies `queue, `attempted
      ensures queue == [] && attempted == old(attempted) + Outcomes(old(queue), outcome)
      ensures State(queue, [], attempted)
           == Exec(old(State(queue, [], attempted)), Round(outcome, |old(queue)|))
    {
      RoundDrains(State(queue, [], attempted), outcome);
      var local := queue;
      queue := [];
      var n := 0;
      while local != []
        invariant n + |local| == |old(queue)| && local == old(queue)[n..] && queue == []
        invariant attempted == old(attempted) + Outcomes(old(queue)[..n], outcome)
        decreases |local|
      {
        var op := local[0];
        local := local[1..];
        attempted := attempted + [(op, outcome(n))];
        assert Outcomes(old(queue)[..n + 1], outcome) == Outcomes(old(queue)[..n], outcome) + [(op, outcome(n))];
        n := n + 1;
      }
      assert old(queue)[..n] == old(queue);
    }
  }
}
