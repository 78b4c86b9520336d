/** The sink's batch calls: bisection around refused rows, halving on repeated transient failure, and
    the payload-bounded runs a batch is cut into (internal/sink/sink.go, insert, join, chunks). */
module SinkInsert {
  import opened Common
  import opened SinkRows

  /** How the environment treats one call. A call that fails transiently may still have taken effect
      (a lost answer), and the context may be cancelled by the time it returns. */
  datatype Fault = Fault(fails: bool, applied: bool, cancels: bool)

  datatype Answer = Ok | BadRow | Transient

  /** Transient failures in succession after which more than one row is split. */
  const SPLIT_AFTER := 3

  predicate AnyRefused(rows: seq<Row>, refuses: Row -> bool) {
    exists r :: r in rows && refuses(r)
  }

  /** The rows refuses leaves, in order. */
  function Accepted(rows: seq<Row>, refuses: Row -> bool): seq<Row> {
    if rows == [] then []
    else (if refuses(rows[0]) then [] else [rows[0]]) + Accepted(rows[1..], refuses)
  }

  function AcceptedSet(rows: seq<Row>, refuses: Row -> bool): set<Row> {
    set r | r in rows && !refuses(r)
  }

  function RefusedIds(rows: seq<Row>, refuses: Row -> bool): set<string> {
    set r | r in rows && refuses(r) :: r.streamId
  }

  function RefusedCount(rows: seq<Row>, refuses: Row -> bool): nat {
    if rows == [] then 0 else (if refuses(rows[0]) then 1 else 0) + RefusedCount(rows[1..], refuses)
  }

  /** Batch calls a bisection makes when nothing fails transiently. */
  function BatchCalls(rows: seq<Row>, refuses: Row -> bool): nat
    decreases |rows|
  {
    if rows == [] then 0
    else if |rows| == 1 || RefusedCount(rows, refuses) == 0 then 1
    else 1 + BatchCalls(rows[..|rows| / 2], refuses) + BatchCalls(rows[|rows| / 2..], refuses)
  }

  function HalvesCalls(rows: seq<Row>, refuses: Row -> bool): nat {
    BatchCalls(rows[..|rows| / 2], refuses) + BatchCalls(rows[|rows| / 2..], refuses)
  }

  lemma {:induction false} AcceptedConcat(a: seq<Row>, b: seq<Row>, refuses: Row -> bool)
    ensures Accepted(a + b, refuses) == Accepted(a, refuses) + Accepted(b, refuses)
    ensures RefusedCount(a + b, refuses) == RefusedCount(a, refuses) + RefusedCount(b, refuses)
  {
    if a == [] {
      assert a + b == b;
    } else {
      assert (a + b)[1..] == a[1..] + b;
      AcceptedConcat(a[1..], b, refuses);
    }
  }

  lemma AcceptedLast(before: seq<Row>, r: Row, refuses: Row -> bool)
    ensures Accepted(before + [r], refuses) == Accepted(before, refuses) + if refuses(r) then [] else [r]
  {
    AcceptedConcat(before, [r], refuses);
    assert [r][1..] == [];
  }

  lemma AcceptedMore(before: seq<Row>, r: Row, refuses: Row -> bool, rest: seq<nat>) returns (at: seq<nat>)
    requires Picked(before, Accepted(before, refuses), rest)
    requires forall n :: 0 <= n < |before| ==> (n in rest <==> !refuses(before[n]))
    ensures Picked(before + [r], Accepted(before + [r], refuses), at)
    ensures forall n :: 0 <= n < |before + [r]| ==> (n in at <==> !refuses((before + [r])[n]))
  {
    AcceptedLast(before, r, refuses);
    PickedMore(before, Accepted(before, refuses), rest, r);
    at := if refuses(r) then rest else rest + [|before|];
    forall n | 0 <= n < |before + [r]| ensures n in at <==> !refuses((before + [r])[n]) {
      assert n < |before| ==> (before + [r])[n] == before[n];
      assert n in at <==> n in rest || (n == |before| && !refuses(r));
    }
  }

  /** What is not refused stays, in order. */
  lemma {:induction false} AcceptedIs(rows: seq<Row>, refuses: Row -> bool) returns (at: seq<nat>)
    ensures Picked(rows, Accepted(rows, refuses), at)
    ensures forall n :: 0 <= n < |rows| ==> (n in at <==> !refuses(rows[n]))
  {
    at := [];
    if rows != [] {
      var before, r := rows[..|rows| - 1], rows[|rows| - 1];
      var rest := AcceptedIs(before, refuses);
      at := AcceptedMore(before, r, refuses, rest);
      assert rows == before + [r];
    }
  }

  lemma {:induction false} NoneRefused(rows: seq<Row>, refuses: Row -> bool)
    ensures RefusedCount(rows, refuses) == 0 <==> !AnyRefused(rows, refuses)
    ensures !AnyRefused(rows, refuses) ==> Accepted(rows, refuses) == rows
  {
    if rows != [] {
      NoneRefused(rows[1..], refuses);
      assert rows == [rows[0]] + rows[1..];
    }
  }

  /** One call for the whole batch, then two for each of at most k refused halves on each of l levels. */
  function CallsOnLevels(k: nat, l: nat): nat {
    if l == 0 then 1 else CallsOnLevels(k, l - 1) + 2 * k
  }

  lemma {:induction false} TwoHalves(ka: nat, kb: nat, l: nat)
    requires ka + kb >= 1
    ensures 1 + CallsOnLevels(ka, l) + CallsOnLevels(kb, l) <= CallsOnLevels(ka + kb, l + 1)
  {
    if l > 0 {
      TwoHalves(ka, kb, l - 1);
    }
  }

  lemma {:induction false} CallsOnLevelsIsProduct(k: nat, l: nat)
    ensures CallsOnLevels(k, l) == 1 + 2 * k * l
  {
    if l > 0 {
      CallsOnLevelsIsProduct(k, l - 1);
    }
  }

  lemma {:induction false} SplitSets(a: seq<Row>, b: seq<Row>, refuses: Row -> bool)
    ensures AcceptedSet(a + b, refuses) == AcceptedSet(a, refuses) + AcceptedSet(b, refuses)
    ensures RefusedIds(a + b, refuses) == RefusedIds(a, refuses) + RefusedIds(b, refuses)
  {
  }

  lemma {:induction false} AtLeastOneCall(k: nat, l: nat)
    ensures CallsOnLevels(k, l) >= 1
  {
    if l > 0 {
      AtLeastOneCall(k, l - 1);
    }
  }

  lemma {:induction false} BisectionOnLevels(rows: seq<Row>, refuses: Row -> bool, l: nat)
    requires 1 <= |rows| <= Pow2(l)
    ensures BatchCalls(rows, refuses) <= CallsOnLevels(RefusedCount(rows, refuses), l)
    decreases l
  {
    if |rows| == 1 || RefusedCount(rows, refuses) == 0 {
      AtLeastOneCall(RefusedCount(rows, refuses), l);
    } else {
      var h := |rows| / 2;
      var a, b := rows[..h], rows[h..];
      assert rows == a + b;
      AcceptedConcat(a, b, refuses);
      BisectionOnLevels(a, refuses, l - 1);
      BisectionOnLevels(b, refuses, l - 1);
      TwoHalves(RefusedCount(a, refuses), RefusedCount(b, refuses), l - 1);
    }
  }

  /** With k refused rows of n, finding them all takes at most 1 + 2k * ceil(log2 n) batch calls. */
  lemma BisectionIsLogarithmic(rows: seq<Row>, refuses: Row -> bool)
    requires rows != []
    ensures BatchCalls(rows, refuses) <= 1 + 2 * RefusedCount(rows, refuses) * CeilLog2(|rows|)
  {
    BisectionOnLevels(rows, refuses, CeilLog2(|rows|));
    CallsOnLevelsIsProduct(RefusedCount(rows, refuses), CeilLog2(|rows|));
  }

  function KeysOf(stored: set<Row>): set<Key> {
    set r | r in stored :: r.key
  }

  /** The keys of the rows that are stored. */
  function StoredAmong(rows: seq<Row>, stored: set<Row>): set<Key> {
    set r | r in rows && r.key in KeysOf(stored) :: r.key
  }

  /** The event store, the call index and the dead-letter stream as one worker's calls see them.
      Whether a row is refused is decided by the row; everything else is up to the fault script, which
      runs dry: after it, every call succeeds. */
  class Stores {
    const insertRefuses: Row -> bool
    const joinRefuses: Row -> bool
    var faults: seq<Fault>
    var cancelled: bool
    var stored: set<Row>
    var dead: set<string>
    /** The keys Joiner.Stored was told about while their rows were stored, and the entries acknowledged once they
        were; a dead-lettered one is acknowledged by its move. */
    var marked: set<Key>
    var acked: set<string>
    /** Insert and Join calls made so far. */
    var calls: nat

    constructor (insertRefuses: Row -> bool, joinRefuses: Row -> bool, faults: seq<Fault>)
      ensures this.insertRefuses == insertRefuses && this.joinRefuses == joinRefuses
      ensures this.faults == faults && !cancelled && stored == {} && dead == {} && marked == {} && acked == {}
      ensures calls == 0
    {
      this.insertRefuses, this.joinRefuses, this.faults := insertRefuses, joinRefuses, faults;
      cancelled, stored, dead, marked, acked, calls := false, {}, {}, {}, {}, 0;
    }

    /** No failure and no cancellation is left to come. */
    predicate Calm()
      reads this
    {
      faults == [] && !cancelled
    }

    method Meet() returns (f: Fault)
      modifies this`faults, this`cancelled
      ensures |faults| <= old(|faults|)
      ensures f.fails ==> |faults| < old(|faults|)
      ensures old(cancelled) ==> cancelled
      ensures old(Calm()) ==> Calm()
    {
      if faults == [] {
        return Fault(false, true, false);
      }
      f := faults[0];
      faults := faults[1..];
      cancelled := cancelled || f.cancels;
    }

    /** Events.Insert: every row or none; refused rows store nothing. */
    method InsertBatch(rows: seq<Row>) returns (answer: Answer)
      modifies `faults, `cancelled, `stored, `calls
      ensures calls == old(calls) + 1
      ensures |faults| <= old(|faults|) && (answer.Transient? ==> |faults| < old(|faults|))
      ensures old(cancelled) ==> cancelled
      ensures old(Calm()) ==> Calm()
      ensures answer.BadRow? ==> AnyRefused(rows, insertRefuses)
      ensures AnyRefused(rows, insertRefuses) ==> !answer.Ok?
      ensures answer.Ok? ==> stored == old(stored) + set r | r in rows
      ensures stored == old(stored) || (stored == old(stored) + (set r | r in rows) && !AnyRefused(rows, insertRefuses))
    {
      calls := calls + 1;
      var f := Meet();
      var refused := AnyRefused(rows, insertRefuses);
      if !refused && (!f.fails || f.applied) {
        stored := stored + set r | r in rows;
      }
      answer := if f.fails then Transient else if refused then BadRow else Ok;
    }

    /** Joiner.Join: it writes the call index, which is not part of this class. */
    method JoinBatch(rows: seq<Row>) returns (answer: Answer)
      modifies `faults, `cancelled, `calls
      ensures calls == old(calls) + 1
      ensures |faults| <= old(|faults|) && (answer.Transient? ==> |faults| < old(|faults|))
      ensures old(cancelled) ==> cancelled
      ensures old(Calm()) ==> Calm()
      ensures answer.BadRow? ==> AnyRefused(rows, joinRefuses)
      ensures answer.Ok? ==> !AnyRefused(rows, joinRefuses)
    {
      calls := calls + 1;
      var f := Meet();
      answer := if f.fails then Transient else if AnyRefused(rows, joinRefuses) then BadRow else Ok;
    }

    /** Gives an entry up to the dead-letter stream, unless the context ends first. */
    method DeadLetter(id: string)
      modifies `faults, `cancelled, `dead
      ensures dead == old(dead) || dead == old(dead) + {id}
      ensures !cancelled ==> id in dead
      ensures |faults| <= old(|faults|)
      ensures old(cancelled) ==> cancelled
      ensures old(Calm()) ==> Calm()
    {
      while true
        invariant dead == old(dead) || dead == old(dead) + {id}
        invariant |faults| <= old(|faults|)
        invariant old(cancelled) ==> cancelled
        invariant old(Calm()) ==> Calm()
        decreases |faults|
      {
        var f := Meet();
        if !f.fails || f.applied {
          dead := dead + {id};
        }
        if !f.fails || cancelled {
          return;
        }
      }
    }

    /** Sends a batch as it is until the event store takes or refuses it, the context ends or, if it has several
        rows, three calls in a row failed. */
    method InsertWhole(rows: seq<Row>) returns (answer: Answer)
      requires rows != []
      modifies `faults, `cancelled, `stored, `calls
      ensures old(stored) <= stored <= old(stored) + AcceptedSet(rows, insertRefuses)
      ensures answer.Ok? ==> stored == old(stored) + AcceptedSet(rows, insertRefuses)
      ensures answer.Ok? ==> !AnyRefused(rows, insertRefuses)
      ensures answer.BadRow? ==> AnyRefused(rows, insertRefuses)
      ensures answer.Transient? && !cancelled ==> |rows| > 1 && calls == old(calls) + 3
      ensures calls > old(calls) && (|rows| > 1 ==> calls <= old(calls) + 3)
      ensures |faults| <= old(|faults|)
      ensures old(cancelled) ==> cancelled
      ensures old(Calm()) ==> Calm() && calls == old(calls) + 1 && !answer.Transient?
    {
      var failures := 1;
      while true
        invariant old(stored) <= stored <= old(stored) + AcceptedSet(rows, insertRefuses)
        invariant |faults| <= old(|faults|)
        invariant old(cancelled) ==> cancelled
        invariant failures >= 1 && calls == old(calls) + failures - 1
        invariant |rows| > 1 ==> failures <= 3
        invariant old(Calm()) ==> Calm() && failures == 1
        decreases |faults|
      {
        answer := InsertBatch(rows);
        if answer.Ok? || answer.BadRow? || cancelled || (failures >= SPLIT_AFTER && |rows| > 1) {
          return;
        }
        failures := failures + 1;
      }
    }

    /** Stores rows, retrying transient failures without end, halving a batch that keeps failing and
        bisecting one that is refused. Whatever the fault script does, only accepted rows are stored and
        only refused ones dead-lettered; unless the context is cancelled, all of them are. */
    method Insert(rows: seq<Row>) returns (ok: bool)
      modifies `faults, `cancelled, `stored, `dead, `calls
      ensures !ok ==> cancelled
      ensures !ok || (stored == old(stored) + AcceptedSet(rows, insertRefuses)
                      && dead == old(dead) + RefusedIds(rows, insertRefuses))
      ensures old(stored) <= stored <= old(stored) + AcceptedSet(rows, insertRefuses)
      ensures old(dead) <= dead <= old(dead) + RefusedIds(rows, insertRefuses)
      ensures |faults| <= old(|faults|)
      ensures old(cancelled) ==> cancelled
      ensures old(Calm()) ==> Calm() && calls == old(calls) + BatchCalls(rows, insertRefuses)
      decreases |rows|, 1
    {
      if rows == [] {
        return true;
      }
      NoneRefused(rows, insertRefuses);
      var answer := InsertWhole(rows);
      if answer.Ok? {
        return true;
      }
      if cancelled {
        return false;
      }
      if answer.BadRow? && |rows| == 1 {
        DeadLetter(rows[0].streamId);
        return !cancelled;
      }
      ok := InsertHalves(rows);
    }

    /** Stores one half, and then the other. */
    method InsertHalves(rows: seq<Row>) returns (ok: bool)
      requires |rows| > 1
      modifies `faults, `cancelled, `stored, `dead, `calls
      ensures !ok ==> cancelled
      ensures !ok || (stored == old(stored) + AcceptedSet(rows, insertRefuses)
                      && dead == old(dead) + RefusedIds(rows, insertRefuses))
      ensures old(stored) <= stored <= old(stored) + AcceptedSet(rows, insertRefuses)
      ensures old(dead) <= dead <= old(dead) + RefusedIds(rows, insertRefuses)
      ensures |faults| <= old(|faults|)
      ensures old(cancelled) ==> cancelled
      ensures old(Calm()) ==> Calm() && calls == old(calls) + HalvesCalls(rows, insertRefuses)
      decreases |rows|, 0
    {
      var half := |rows| / 2;
      assert rows == rows[..half] + rows[half..];
      SplitSets(rows[..half], rows[half..], insertRefuses);
      ok := Insert(rows[..half]);
      if ok {
        ok := Insert(rows[half..]);
      }
    }

    /** Joins each row to its call. The accepted ones, in order, are to be stored. */
    method Join(rows: seq<Row>) returns (ok: bool, joined: seq<Row>)
      modifies `faults, `cancelled, `dead, `calls
      ensures !ok ==> cancelled
      ensures !ok || (joined == Accepted(rows, joinRefuses) && dead == old(dead) + RefusedIds(rows, joinRefuses))
      ensures old(dead) <= dead <= old(dead) + RefusedIds(rows, joinRefuses)
      ensures |faults| <= old(|faults|)
      ensures old(cancelled) ==> cancelled
      ensures old(Calm()) ==> Calm() && calls == old(calls) + BatchCalls(rows, joinRefuses)
      decreases |rows|
    {
      if rows == [] {
        return true, [];
      }
      NoneRefused(rows, joinRefuses);
      while true
        invariant dead == old(dead)
        invariant |faults| <= old(|faults|)
        invariant old(cancelled) ==> cancelled
        invariant old(Calm()) ==> Calm() && calls == old(calls)
        decreases |faults|
      {
        var answer := JoinBatch(rows);
        if answer.Ok? {
          return true, rows;
        }
        if cancelled {
          return false, [];
        }
        if answer.BadRow? && |rows| == 1 {
          assert rows[1..] == [] && joinRefuses(rows[0]);
          DeadLetter(rows[0].streamId);
          return !cancelled, [];
        }
        if answer.BadRow? {
          var half := |rows| / 2;
          assert rows == rows[..half] + rows[half..];
          AcceptedConcat(rows[..half], rows[half..], joinRefuses);
          SplitSets(rows[..half], rows[half..], joinRefuses);
          var first, second;
          ok, first := Join(rows[..half]);
          if !ok {
            return false, [];
          }
          ok, second := Join(rows[half..]);
          if !ok {
            return false, [];
          }
          return true, first + second;
        }
      }
    }

    /** Joiner.Stored: marks the calls of those rows that are stored. */
    method MarkStale(rows: seq<Row>) returns (ok: bool)
      modifies `faults, `cancelled, `marked
      ensures !ok ==> cancelled
      ensures marked == old(marked) || marked == old(marked) + StoredAmong(rows, stored)
      ensures ok ==> marked == old(marked) + StoredAmong(rows, stored)
      ensures old(cancelled) ==> cancelled
    {
      var keys := StoredAmong(rows, stored);
      while true
        invariant marked == old(marked) || marked == old(marked) + keys
        invariant old(cancelled) ==> cancelled
        decreases |faults|
      {
        var f := Meet();
        if !f.fails || f.applied {
          marked := marked + keys;
        }
        if !f.fails || cancelled {
          return !f.fails;
        }
      }
    }

    /** Stream.Ack. */
    method Acknowledge(ids: set<string>) returns (ok: bool)
      modifies `faults, `cancelled, `acked
      ensures !ok ==> cancelled
      ensures acked == old(acked) || acked == old(acked) + ids
      ensures ok ==> acked == old(acked) + ids
    {
      while true
        invariant acked == old(acked) || acked == old(acked) + ids
        decreases |faults|
      {
        var f := Meet();
        if !f.fails || f.applied {
          acked := acked + ids;
        }
        if !f.fails || cancelled {
          return !f.fails;
        }
      }
    }
  }

  function Bytes(rows: seq<Row>): nat {
    if rows == [] then 0 else Bytes(rows[..|rows| - 1]) + rows[|rows| - 1].size
  }

  function Flatten(runs: seq<seq<Row>>): seq<Row> {
    if runs == [] then [] else Flatten(runs[..|runs| - 1]) + runs[|runs| - 1]
  }

  /** A run that fits, or a single row that alone does not. */
  predicate Fits(run: seq<Row>, limit: nat) {
    run != [] && (|run| == 1 || Bytes(run) <= limit)
  }

  /** Every run fits, and none could also have taken the first row of the next one. */
  predicate Greedy(runs: seq<seq<Row>>, limit: nat) {
    && (forall i :: 0 <= i < |runs| ==> Fits(runs[i], limit))
    && (forall i, j :: 0 <= i && j == i + 1 < |runs| ==> Bytes(runs[i]) + runs[j][0].size > limit)
  }

  /** After the first i rows: runs hold those before start, and the open run holds the rest. */
  ghost predicate Cut(rows: seq<Row>, limit: nat, runs: seq<seq<Row>>, start: nat, size: nat, i: nat) {
    && start <= i <= |rows| && (i > 0 ==> start < i)
    && Flatten(runs) == rows[..start]
    && size == Bytes(rows[start..i])
    && (i > start ==> Fits(rows[start..i], limit))
    && Greedy(runs, limit)
    && (runs != [] ==> start < i && Bytes(runs[|runs| - 1]) + rows[start].size > limit)
  }

  lemma {:induction false} CloseRun(runs: seq<seq<Row>>, run: seq<Row>, limit: nat)
    requires Greedy(runs, limit) && Fits(run, limit)
    requires runs != [] ==> Bytes(runs[|runs| - 1]) + run[0].size > limit
    ensures Greedy(runs + [run], limit)
    ensures Flatten(runs + [run]) == Flatten(runs) + run
  {
    assert (runs + [run])[..|runs|] == runs;
  }

  lemma {:induction false} ExtendRun(rows: seq<Row>, limit: nat, runs: seq<seq<Row>>, start: nat, size: nat, i: nat)
    requires Cut(rows, limit, runs, start, size, i) && i < |rows|
    requires i == start || size + rows[i].size <= limit
    ensures Cut(rows, limit, runs, start, size + rows[i].size, i + 1)
  {
    assert rows[start..i + 1][..i - start] == rows[start..i];
  }

  lemma {:induction false} OneRow(rows: seq<Row>, i: nat)
    requires i < |rows|
    ensures Bytes(rows[i..i + 1]) == rows[i].size
  {
    assert rows[i..i + 1][..0] == [];
  }

  lemma {:induction false} NextRun(rows: seq<Row>, limit: nat, runs: seq<seq<Row>>, start: nat, size: nat, i: nat)
    requires Cut(rows, limit, runs, start, size, i) && start < i < |rows|
    requires size + rows[i].size > limit
    ensures Cut(rows, limit, runs + [rows[start..i]], i, rows[i].size, i + 1)
  {
    CloseRun(runs, rows[start..i], limit);
    assert rows[..start] + rows[start..i] == rows[..i];
    OneRow(rows, i);
  }

  lemma {:induction false} LastRun(rows: seq<Row>, limit: nat, runs: seq<seq<Row>>, start: nat, size: nat)
    requires Cut(rows, limit, runs, start, size, |rows|) && start < |rows|
    ensures Greedy(runs + [rows[start..]], limit) && Flatten(runs + [rows[start..]]) == rows
  {
    assert rows[start..|rows|] == rows[start..];
    CloseRun(runs, rows[start..], limit);
  }

  /** Cuts rows into runs that fit the limit, each as long as it can be; only a row that alone exceeds it makes a
      run that does not. */
  method Chunks(rows: seq<Row>, limit: nat) returns (runs: seq<seq<Row>>)
    ensures Flatten(runs) == rows
    ensures Greedy(runs, limit)
  {
    runs := [];
    var start: nat, size: nat := 0, 0;
    for i := 0 to |rows|
      invariant Cut(rows, limit, runs, start, size, i)
    {
      if i > start && size + rows[i].size > limit {
        NextRun(rows, limit, runs, start, size, i);
        runs := runs + [rows[start..i]];
        start, size := i, 0;
      } else {
        ExtendRun(rows, limit, runs, start, size, i);
      }
      size := size + rows[i].size;
    }
    if start < |rows| {
      LastRun(rows, limit, runs, start, size);
      runs := runs + [rows[start..]];
    }
  }
}
