/** `KlineBackfiller.backfill_symbol`: the adaptive chunking loop.  Times are
    whole microseconds since the least datetime, as in Python's timedelta; a
    sum outside the datetime range raises OverflowError, and the loop does not
    catch it. */
module Backfill {
  import opened Arith

  const LEAST: int := 0
  const GREATEST: int := 315_537_897_599_999_999
  const HOUR: int := 3_600_000_000
  const MAX_CONSECUTIVE_ERRORS: nat := 3
  const FEW_ROWS: nat := 100

  /** From the start of year 1 to the last microsecond of year 9999. */
  type DateTime = t: int | LEAST <= t <= GREATEST

  /** What one request ends in: rows (saved), an empty answer, or an exception. */
  datatype Outcome = Data(rows: nat) | Empty | Thrown

  datatype State = State(current: int, chunk: int, errors: nat)

  /** `timedelta / 2` rounds halves to even. */
  function Halve(c: int): int {
    var floor := c / 2;
    if c % 2 == 1 && floor % 2 != 0 then floor + 1 else floor
  }

  function Shrink(c: int): int {
    if Halve(c) < HOUR then HOUR else Halve(c)
  }

  /** A chunk is halved to the nearest microsecond, the even one between two, but
      never below an hour. */
  lemma ShrinkHalves(c: int)
    ensures c >= 2 * HOUR ==> -1 <= 2 * Shrink(c) - c <= 1 && (2 * Shrink(c) != c ==> Shrink(c) % 2 == 0)
    ensures c <= 2 * HOUR ==> Shrink(c) == HOUR == 3_600_000_000
  {}

  predicate Running(end: int, s: State) {
    s.current < end && s.errors < MAX_CONSECUTIVE_ERRORS
  }

  /** Is the end of the next chunk a datetime? */
  predicate InRange(s: State) {
    LEAST <= s.current + s.chunk <= GREATEST
  }

  /** Does the loop make another turn, or does it raise instead? */
  predicate Goes(end: int, s: State) { Running(end, s) && InRange(s) }
  predicate Raises(end: int, s: State) { Running(end, s) && !InRange(s) }

  function ChunkEnd(end: int, s: State): int {
    if s.current + s.chunk < end then s.current + s.chunk else end
  }

  function Step(end: int, s: State, o: Outcome): State {
    match o
    case Data(rows) =>
      State(ChunkEnd(end, s), if rows < FEW_ROWS then Shrink(s.chunk) else s.chunk, 0)
    case Empty => State(ChunkEnd(end, s), s.chunk, s.errors + 1)
    case Thrown => State(s.current, Shrink(s.chunk), s.errors + 1)
  }

  /** The state after n turns, or where the loop stopped before. */
  function Run(end: int, s: State, outcome: nat -> Outcome, n: nat): State {
    if n == 0 then s
    else
      var t := Run(end, s, outcome, n - 1);
      if Goes(end, t) then Step(end, t, outcome(n - 1)) else t
  }

  // ---- Termination ----

  function Remaining(end: int, s: State): nat {
    if s.current < end then end - s.current else 0
  }

  /** Turns still possible at most: three for each piece of length `piece` left,
      less the errors already in a row. */
  function Potential(piece: nat, end: int, s: State): nat
    requires piece > 0
  {
    var turns := 3 * CeilDiv(Remaining(end, s), piece) - s.errors;
    if turns < 0 then 0 else turns
  }

  lemma PiecesShrink(x: nat, y: nat, piece: nat)
    requires piece > 0 && x > 0 && (y + piece <= x || y == 0)
    ensures CeilDiv(y, piece) + 1 <= CeilDiv(x, piece)
  {
    var c, d := CeilDiv(x, piece), CeilDiv(y, piece);
    CeilDivCovers(x, piece);
    CeilDivCovers(y, piece);
    assert (d - 1) * piece == d * piece - piece;
    if y == 0 {
      CeilDivUnique(0, piece, 0);
      MulOrder(if c <= 0 then c else 0, 0, piece);
    } else {
      MulOrder(if c <= d then c else d, d, piece);
    }
  }

  /** Every turn uses up potential, whatever its outcome. */
  lemma StepDescends(piece: nat, end: int, s: State, o: Outcome)
    requires 0 < piece <= HOUR && piece <= s.chunk && Running(end, s)
    ensures piece <= Step(end, s, o).chunk
    ensures Potential(piece, end, Step(end, s, o)) < Potential(piece, end, s)
  {
    var t := Step(end, s, o);
    PiecesShrink(Remaining(end, s), 0, piece);
    CeilDivUnique(0, piece, 0);
    if !o.Thrown? {
      PiecesShrink(Remaining(end, s), Remaining(end, t), piece);
    }
  }

  /** The smallest chunk the loop ever uses. */
  function Piece(chunk: int): int {
    if chunk < HOUR then chunk else HOUR
  }

  lemma {:induction false} PotentialFalls(end: int, s: State, outcome: nat -> Outcome, n: nat)
    requires s.chunk > 0
    ensures var t := Run(end, s, outcome, n);
      && t.chunk >= Piece(s.chunk)
      && (Goes(end, t) ==> Potential(Piece(s.chunk), end, t) + n <= Potential(Piece(s.chunk), end, s))
  {
    if n > 0 {
      var t := Run(end, s, outcome, n - 1);
      PotentialFalls(end, s, outcome, n - 1);
      if Goes(end, t) {
        StepDescends(Piece(s.chunk), end, t, outcome(n - 1));
      }
    }
  }

  /** Three turns for each piece of the smaller of the chunk and one hour. */
  function TurnLimit(start: int, end: int, chunk: int): nat
    requires chunk > 0
  {
    3 * CeilDiv(Remaining(end, State(start, chunk, 0)), Piece(chunk))
  }

  /** With a positive chunk the loop stops within that many turns, whatever mix
      of data, empty answers and exceptions it meets. */
  lemma StopsInTime(start: DateTime, end: DateTime, chunk: int, outcome: nat -> Outcome)
    requires chunk > 0
    ensures !Goes(end, Run(end, State(start, chunk, 0), outcome, TurnLimit(start, end, chunk)))
    ensures TurnLimit(start, end, chunk)
         == 3 * CeilDiv(if start < end then end - start else 0, if chunk < HOUR then chunk else HOUR)
  {
    var s := State(start, chunk, 0);
    var n := TurnLimit(start, end, chunk);
    PotentialFalls(end, s, outcome, n);
    var t := Run(end, s, outcome, n);
    if Remaining(end, t) > 0 {
      PiecesShrink(Remaining(end, t), 0, Piece(chunk));
      CeilDivUnique(0, Piece(chunk), 0);
    }
  }

  /** Nothing is raised while a chunk beyond the end is still a datetime. */
  lemma {:induction false} NeverRaises(start: DateTime, end: DateTime, chunk: int, outcome: nat -> Outcome, n: nat)
    requires chunk > 0 && end + (if chunk < HOUR then HOUR else chunk) <= GREATEST
    ensures var t := Run(end, State(start, chunk, 0), outcome, n);
      && !Raises(end, t)
      && LEAST <= t.current && 0 < t.chunk <= if chunk < HOUR then HOUR else chunk
  {
    if n > 0 {
      NeverRaises(start, end, chunk, outcome, n - 1);
    }
  }

  /** On its first turn the loop raises exactly when the end of the first chunk is no datetime. */
  lemma RaisesAtOnce(start: DateTime, end: DateTime, chunk: int, outcome: nat -> Outcome)
    ensures Raises(end, Run(end, State(start, chunk, 0), outcome, 0))
       <==> start < end && !(LEAST <= start + chunk <= GREATEST)
  {}

  // ---- Exactly when the loop stops ----

  ghost predicate Stops(end: int, s: State, outcome: nat -> Outcome) {
    exists n: nat :: !Goes(end, Run(end, s, outcome, n))
  }

  /** From turn n on something happens that gets a stuck loop out: an exception
      or a short answer makes the chunk positive, three empty answers in a row end the loop. */
  predicate Escapes(outcome: nat -> Outcome, n: nat) {
    match outcome(n)
    case Thrown => true
    case Data(rows) => rows < FEW_ROWS
    case Empty => outcome(n + 1).Empty? && outcome(n + 2).Empty?
  }

  lemma {:induction false} RunShift(end: int, s: State, outcome: nat -> Outcome, n: nat, m: nat)
    ensures Run(end, s, outcome, n + m) == Run(end, Run(end, s, outcome, n), (i: nat) => outcome(n + i), m)
  {
    hide Step;
    if m > 0 {
      RunShift(end, s, outcome, n, m - 1);
    }
  }

  lemma {:induction false} StoppedStays(end: int, s: State, outcome: nat -> Outcome, n: nat, m: nat)
    requires !Goes(end, Run(end, s, outcome, n)) && n <= m
    ensures !Goes(end, Run(end, s, outcome, m))
    decreases m
  {
    if n < m {
      StoppedStays(end, s, outcome, n, m - 1);
    }
  }

  /** Once the chunk is positive the loop stops. */
  lemma StopsFrom(end: int, s: State, outcome: nat -> Outcome, n: nat)
    requires Run(end, s, outcome, n).chunk > 0
    ensures Stops(end, s, outcome)
  {
    var t := Run(end, s, outcome, n);
    var m := Potential(Piece(t.chunk), end, t) + 1;
    PotentialFalls(end, t, (i: nat) => outcome(n + i), m);
    RunShift(end, s, outcome, n, m);
    assert !Goes(end, Run(end, s, outcome, n + m));
  }

  lemma EscapeStops(end: int, s: State, outcome: nat -> Outcome, n: nat)
    requires Escapes(outcome, n)
    ensures Stops(end, s, outcome)
  {
    if Goes(end, Run(end, s, outcome, n)) {
      if outcome(n).Empty? {
        StoppedOrMoreErrors(end, s, outcome, n);
        StoppedOrMoreErrors(end, s, outcome, n + 1);
        StoppedOrMoreErrors(end, s, outcome, n + 2);
        assert !Goes(end, Run(end, s, outcome, n + 3));
      } else {
        StopsFrom(end, s, outcome, n + 1);
      }
    }
  }

  lemma StoppedOrMoreErrors(end: int, s: State, outcome: nat -> Outcome, n: nat)
    requires outcome(n).Empty?
    ensures var t, t' := Run(end, s, outcome, n), Run(end, s, outcome, n + 1);
      if Goes(end, t) then t'.errors == t.errors + 1 else !Goes(end, t')
  {}

  ghost predicate NoEscape(outcome: nat -> Outcome) {
    forall k: nat :: !Escapes(outcome, k)
  }

  /** Without a way out a chunk that is not positive stays as it is, each turn
      moves by one chunk as long as there is room, and errors are at most the
      two empty answers just received. */
  lemma {:induction false} Stuck(start: DateTime, end: DateTime, chunk: int, outcome: nat -> Outcome, n: nat)
    requires chunk <= 0 && start < end && NoEscape(outcome) && start + n * chunk >= LEAST
    ensures var t := Run(end, State(start, chunk, 0), outcome, n);
      && Running(end, t) && t.chunk == chunk && t.current == start + n * chunk <= start && t.errors <= 2
      && (t.errors >= 1 ==> n >= 1 && outcome(n - 1).Empty?)
      && (t.errors >= 2 ==> n >= 2 && outcome(n - 2).Empty?)
  {
    if n > 0 {
      assert n * chunk == (n - 1) * chunk + chunk;
      Stuck(start, end, chunk, outcome, n - 1);
      assert !Escapes(outcome, n - 1);
      if n >= 3 { assert !Escapes(outcome, n - 3); }
    }
  }

  /** With chunk 0 and no way out the loop never stops, ... */
  lemma NeverStops(start: DateTime, end: DateTime, outcome: nat -> Outcome, n: nat)
    requires start < end && NoEscape(outcome)
    ensures Goes(end, Run(end, State(start, 0, 0), outcome, n))
  {
    Stuck(start, end, 0, outcome, n);
  }

  /** ... and there are such answers: full ones. */
  lemma FullAnswersNoEscape()
    ensures NoEscape(_ => Data(FEW_ROWS))
  {}

  /** With a negative chunk and no way out it walks back, chunk by chunk, until
      the next step would leave the datetime range, and raises there. */
  lemma WalksBack(start: DateTime, end: DateTime, chunk: int, outcome: nat -> Outcome) returns (n: nat)
    requires chunk < 0 && start < end && NoEscape(outcome)
    ensures start + (n + 1) * chunk < LEAST <= start + n * chunk
    ensures var t := Run(end, State(start, chunk, 0), outcome, n);
      Raises(end, t) && t.current == start + n * chunk && t.chunk == chunk
  {
    n := (start - LEAST) / -chunk;
    assert start - LEAST == n * -chunk + (start - LEAST) % -chunk;
    assert n * -chunk == -(n * chunk) && (n + 1) * chunk == n * chunk + chunk;
    Stuck(start, end, chunk, outcome, n);
  }

  /** The loop stops exactly when the chunk is not 0, there is nothing to do, or
      some outcome lets a stuck loop out. */
  lemma StopsExactlyWhen(start: DateTime, end: DateTime, chunk: int, outcome: nat -> Outcome)
    ensures Stops(end, State(start, chunk, 0), outcome)
       <==> chunk != 0 || start >= end || exists n: nat :: Escapes(outcome, n)
  {
    var s := State(start, chunk, 0);
    assert Run(end, s, outcome, 0) == s;
    if chunk > 0 {
      StopsFrom(end, s, outcome, 0);
    } else if start < end {
      if n: nat :| Escapes(outcome, n) {
        EscapeStops(end, s, outcome, n);
      } else if chunk < 0 {
        var n := WalksBack(start, end, chunk, outcome);
        assert !Goes(end, Run(end, s, outcome, n));
      } else if Stops(end, s, outcome) {
        var n: nat :| !Goes(end, Run(end, s, outcome, n));
        NeverStops(start, end, outcome, n);
      }
    }
  }

  // ---- How far the requests reach ----

  /** With full answers throughout, n turns cover n chunks, cut off at the end. */
  lemma {:induction false} FullSpeed(start: DateTime, end: DateTime, chunk: int, rows: nat -> nat, n: nat)
    requires chunk > 0 && start <= end && end + chunk <= GREATEST && forall i: nat :: rows(i) >= 100
    ensures var t := Run(end, State(start, chunk, 0), (i: nat) => Data(rows(i)), n);
      t == State(if start + n * chunk < end then start + n * chunk else end, chunk, 0)
  {
    if n > 0 {
      FullSpeed(start, end, chunk, rows, n - 1);
      assert n * chunk == (n - 1) * chunk + chunk;
      assert (n - 1) * chunk >= 0;
    }
  }

  /** What each outcome does to the three variables of the loop, in plain numbers. */
  lemma TurnEffect(end: DateTime, s: State, o: Outcome)
    ensures var t := Step(end, s, o);
      && (!o.Thrown? ==> t.current <= end && t.current <= s.current + s.chunk
                         && (t.current == end || t.current == s.current + s.chunk))
      && (o.Thrown? ==> t.current == s.current)
      && t.errors == (if o.Data? then 0 else s.errors + 1)
      && ((o.Data? && o.rows >= 100) || o.Empty? ==> t.chunk == s.chunk)
      && ((o.Data? && o.rows < 100) || o.Thrown? ==>
           if s.chunk <= 2 * HOUR then t.chunk == HOUR else -1 <= 2 * t.chunk - s.chunk <= 1)
  {
    ShrinkHalves(s.chunk);
  }

  // ---- The loop ----

  datatype Request = Request(from: int, to: int)

  /** The requests follow one another without gap or overlap, from `start` to `at`. */
  ghost predicate Tiles(rs: seq<Request>, start: int, at: int) {
    if rs == [] then start == at
    else rs[|rs| - 1].to == at && Tiles(rs[..|rs| - 1], start, rs[|rs| - 1].from)
  }

  ghost predicate Forward(rs: seq<Request>) {
    forall i | 0 <= i < |rs| :: rs[i].from < rs[i].to
  }

  /** The requests answered (with data or empty) in the first n turns. */
  function Requests(end: int, s: State, outcome: nat -> Outcome, n: nat): seq<Request> {
    if n == 0 then []
    else
      var t := Run(end, s, outcome, n - 1);
      var before := Requests(end, s, outcome, n - 1);
      if Goes(end, t) && !outcome(n - 1).Thrown?
      then before + [Request(t.current, ChunkEnd(end, t))] else before
  }

  /** They tile [start, current) without gap or overlap; with a positive chunk
      each goes forward and none leaves the range. */
  lemma {:induction false} RequestsTile(start: DateTime, end: DateTime, chunk: int, outcome: nat -> Outcome, n: nat)
    ensures var s := State(start, chunk, 0);
      var rs, t := Requests(end, s, outcome, n), Run(end, s, outcome, n);
      && Tiles(rs, start, t.current) && LEAST <= t.current <= GREATEST
      && (chunk > 0 ==> Forward(rs) && (start <= end ==> start <= t.current <= end))
  {
    hide Potential, CeilDiv, Shrink, Forward;
    if n == 0 {
      NothingForward();
    } else {
      var s := State(start, chunk, 0);
      var t, before := Run(end, s, outcome, n - 1), Requests(end, s, outcome, n - 1);
      RequestsTile(start, end, chunk, outcome, n - 1);
      if chunk > 0 { PotentialFalls(end, s, outcome, n - 1); }
      RequestAppended(before, start, t.current, ChunkEnd(end, t));
    }
  }

  lemma NothingForward()
    ensures Forward([])
  {}

  lemma RequestAppended(rs: seq<Request>, start: int, from: int, to: int)
    requires Tiles(rs, start, from)
    ensures Tiles(rs + [Request(from, to)], start, to)
    ensures Forward(rs) && from < to ==> Forward(rs + [Request(from, to)])
  {
    assert (rs + [Request(from, to)])[..|rs|] == rs;
  }

  /** One turn, while the loop has not reached the turn it stops at. */
  lemma TurnTaken(end: int, s: State, outcome: nat -> Outcome, n: nat, last: nat)
    requires Goes(end, Run(end, s, outcome, n)) && !Goes(end, Run(end, s, outcome, last))
    ensures n != last && Run(end, s, outcome, n + 1) == Step(end, Run(end, s, outcome, n), outcome(n))
  {}

  /** The loop is entered only on inputs on which it stops; StopsExactlyWhen
      says which.  `done` lists the requests that were answered, and `raised`
      tells whether it was left by an OverflowError. */
  method BackfillSymbol(start: DateTime, end: DateTime, chunk: int, outcome: nat -> Outcome)
    returns (turns: nat, done: seq<Request>, final: State, raised: bool)
    requires Stops(end, State(start, chunk, 0), outcome)
    ensures chunk > 0 ==> turns <= TurnLimit(start, end, chunk)
    ensures final == Run(end, State(start, chunk, 0), outcome, turns)
    ensures done == Requests(end, State(start, chunk, 0), outcome, turns) && Tiles(done, start, final.current)
    ensures chunk > 0 ==> Forward(done) && (start <= end ==> start <= final.current <= end)
    ensures raised <==> Raises(end, final)
    ensures !raised ==> final.current >= end || final.errors == MAX_CONSECUTIVE_ERRORS
  {
    hide TurnLimit, Tiles, Forward, Shrink;
    ghost var s := State(start, chunk, 0);
    ghost var last: nat :| !Goes(end, Run(end, s, outcome, last));
    if chunk > 0 {
      StopsInTime(start, end, chunk, outcome);
      last := TurnLimit(start, end, chunk);
    }
    var current, chunkSize, errors := start, chunk, 0;
    turns, done, raised := 0, [], false;
    while current < end && errors < MAX_CONSECUTIVE_ERRORS
      invariant State(current, chunkSize, errors) == Run(end, s, outcome, turns)
      invariant done == Requests(end, s, outcome, turns)
      invariant !raised && turns <= last && errors <= MAX_CONSECUTIVE_ERRORS
      decreases last - turns
    {
      if !(LEAST <= current + chunkSize <= GREATEST) {
        raised := true;
        break;
      }
      TurnTaken(end, s, outcome, turns, last);
      var currentEnd := if current + chunkSize < end then current + chunkSize else end;
      if outcome(turns).Thrown? {
        errors := errors + 1;
        chunkSize := Shrink(chunkSize);
      } else {
        if outcome(turns).Data? {
          errors := 0;
          if outcome(turns).rows < FEW_ROWS {
            chunkSize := Shrink(chunkSize);
          }
        } else {
          errors := errors + 1;
        }
        done := done + [Request(current, currentEnd)];
        current := currentEnd;
      }
      turns := turns + 1;
    }
    RequestsTile(start, end, chunk, outcome, turns);
    final := State(current, chunkSize, errors);
  }
}
