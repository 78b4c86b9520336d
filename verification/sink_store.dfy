/** One worker storing one batch (internal/sink/sink.go, store and retry): which of its entries end up stored,
    which dead-lettered, and when the batch is acknowledged. */
module SinkStore {
  import opened Common
  import opened SinkRows
  import opened SinkInsert

  /** An entry as read from the stream; one that could not be decoded has no envelope. */
  datatype Message = Message(id: string, envelope: Option<Envelope>)

  function RowKey(r: Row): Key {
    r.key
  }

  function RowsOf(msgs: seq<Message>): seq<Row> {
    if msgs == [] then []
    else
      var before, m := RowsOf(msgs[..|msgs| - 1]), msgs[|msgs| - 1];
      if m.envelope.None? then before else before + [ToEvent(m.envelope.value, m.id)]
  }

  /** A row made of a message: its entry, its size, and a key of the envelope's own fields, with the entry's id for
      an event that has none. */
  predicate MadeOf(m: Message, r: Row) {
    && m.envelope.Some?
    && r.streamId == m.id && r.size == m.envelope.value.size
    && r.key.organisation == m.envelope.value.organisation && r.key.project == m.envelope.value.project
    && r.key.kind == m.envelope.value.kind
    && (m.envelope.value.id != "" ==> r.key.dedupe == m.envelope.value.id)
    && (m.envelope.value.id == "" ==> r.key.dedupe == "entry:" + m.id)
  }

  /** The rows are those of the messages at these places, in order, and no decodable message is left out. */
  ghost predicate MadeInOrder(msgs: seq<Message>, rows: seq<Row>, at: seq<nat>) {
    && |at| == |rows|
    && (forall i :: 0 <= i < |at| ==> at[i] < |msgs| && MadeOf(msgs[at[i]], rows[i]))
    && (forall i, j :: 0 <= i < j < |at| ==> at[i] < at[j])
    && (forall n :: 0 <= n < |msgs| && msgs[n].envelope.Some? ==> n in at)
  }

  lemma MadeMore(msgs: seq<Message>, rows: seq<Row>, at: seq<nat>, m: Message)
    requires MadeInOrder(msgs, rows, at)
    ensures m.envelope.None? ==> MadeInOrder(msgs + [m], rows, at)
    ensures m.envelope.Some? ==>
              MadeInOrder(msgs + [m], rows + [ToEvent(m.envelope.value, m.id)], at + [|msgs|])
  {
    var n := |msgs|;
    assert forall x :: x in at + [n] <==> x in at || x == n;
    if m.envelope.Some? {
      assert MadeOf(m, ToEvent(m.envelope.value, m.id));
    }
  }

  /** Every decodable message, with an event id or without, makes its own row, in order. */
  lemma {:induction false} RowsAreTheDecodable(msgs: seq<Message>) returns (at: seq<nat>)
    ensures MadeInOrder(msgs, RowsOf(msgs), at)
  {
    at := [];
    if msgs != [] {
      var before, m := msgs[..|msgs| - 1], msgs[|msgs| - 1];
      var rest := RowsAreTheDecodable(before);
      MadeMore(before, RowsOf(before), rest, m);
      assert msgs == before + [m];
      at := if m.envelope.Some? then rest + [|before|] else rest;
    }
  }

  /** The key of a decodable message's row. */
  function MessageKey(m: Message): Key
    requires m.envelope.Some?
  {
    ToEvent(m.envelope.value, m.id).key
  }

  function Undecodable(msgs: seq<Message>): set<string> {
    set m | m in msgs && m.envelope.None? :: m.id
  }

  /** The first row of each key, in order. */
  function FirstRows(rows: seq<Row>): seq<Row> {
    FirstOfEachKey(rows, RowKey)
  }

  function DecodableIds(msgs: seq<Message>): set<string> {
    set m | m in msgs && m.envelope.Some? :: m.id
  }

  lemma AcceptedMeans(rows: seq<Row>, refuses: Row -> bool)
    ensures forall r :: r in Accepted(rows, refuses) <==> r in rows && !refuses(r)
  {
    var at := AcceptedIs(rows, refuses);
  }

  method UniqueRows(rows: seq<Row>) returns (unique: seq<Row>)
    ensures unique == FirstRows(rows)
  {
    unique := [];
    var seen: set<Key> := {};
    for i := 0 to |rows|
      invariant seen == Keys(rows[..i], RowKey) && unique == FirstRows(rows[..i])
    {
      var r := rows[i];
      assert rows[..i + 1] == rows[..i] + [r] && rows[..i + 1][..i] == rows[..i];
      KeysConcat(rows[..i], [r], RowKey);
      OneKey(r, RowKey);
      if r.key !in seen {
        seen := seen + {r.key};
        unique := unique + [r];
      }
    }
    assert rows[..|rows|] == rows;
  }

  method FreshRows(joined: seq<Row>, stored: set<Key>) returns (rows: seq<Row>)
    ensures rows == Unknown(joined, RowKey, stored)
  {
    rows := [];
    for i := 0 to |joined|
      invariant rows == Unknown(joined[..i], RowKey, stored)
    {
      assert joined[..i + 1][..i] == joined[..i];
      if joined[i].key !in stored {
        rows := rows + [joined[i]];
      }
    }
    assert joined[..|joined|] == joined;
  }

  /** Calls until one succeeds, or fails once the context has ended. */
  method Retry(s: Stores) returns (ok: bool)
    modifies s`faults, s`cancelled
    ensures !ok ==> s.cancelled
    ensures old(s.cancelled) ==> s.cancelled
  {
    ok := false;
    while true
      invariant old(s.cancelled) ==> s.cancelled
      decreases |s.faults|
    {
      var f := s.Meet();
      if !f.fails {
        return true;
      }
      if s.cancelled {
        return false;
      }
    }
  }

  /** Builds the rows; an entry that cannot be one is dead-lettered. */
  method Decode(s: Stores, msgs: seq<Message>) returns (rows: seq<Row>)
    modifies s`faults, s`cancelled, s`dead
    ensures rows == RowsOf(msgs) && exists at :: MadeInOrder(msgs, rows, at)
    ensures old(s.dead) <= s.dead <= old(s.dead) + Undecodable(msgs)
    ensures !s.cancelled ==> s.dead == old(s.dead) + Undecodable(msgs)
  {
    rows := [];
    for i := 0 to |msgs|
      invariant rows == RowsOf(msgs[..i])
      invariant old(s.dead) <= s.dead <= old(s.dead) + Undecodable(msgs[..i])
      invariant !s.cancelled ==> s.dead == old(s.dead) + Undecodable(msgs[..i])
    {
      var m := msgs[i];
      assert msgs[..i + 1] == msgs[..i] + [m] && msgs[..i + 1][..i] == msgs[..i];
      assert Undecodable(msgs[..i + 1]) == Undecodable(msgs[..i]) + if m.envelope.None? then {m.id} else {};
      if m.envelope.None? {
        s.DeadLetter(m.id);
      } else {
        rows := rows + [ToEvent(m.envelope.value, m.id)];
      }
    }
    assert msgs[..|msgs|] == msgs;
    ghost var at := RowsAreTheDecodable(msgs);
  }

  /** Stores the rows run by run. */
  method InsertRuns(s: Stores, rows: seq<Row>, limit: nat) returns (ok: bool)
    modifies s`faults, s`cancelled, s`stored, s`dead, s`calls
    ensures !ok ==> s.cancelled
    ensures ok ==> s.stored == old(s.stored) + AcceptedSet(rows, s.insertRefuses)
    ensures ok ==> s.dead == old(s.dead) + RefusedIds(rows, s.insertRefuses)
    ensures old(s.cancelled) ==> s.cancelled
  {
    var runs := Chunks(rows, limit);
    for i := 0 to |runs|
      invariant s.stored == old(s.stored) + AcceptedSet(Flatten(runs[..i]), s.insertRefuses)
      invariant s.dead == old(s.dead) + RefusedIds(Flatten(runs[..i]), s.insertRefuses)
      invariant old(s.cancelled) ==> s.cancelled
    {
      assert runs[..i + 1][..i] == runs[..i];
      SplitSets(Flatten(runs[..i]), runs[i], s.insertRefuses);
      ok := s.Insert(runs[i]);
      if !ok {
        return false;
      }
    }
    assert runs[..|runs|] == runs;
    ok := true;
  }

  /** Message n is the first decodable one with this key. */
  ghost predicate FirstWithKey(msgs: seq<Message>, n: nat, k: Key) {
    && n < |msgs| && msgs[n].envelope.Some? && MessageKey(msgs[n]) == k
    && forall i :: 0 <= i < n && msgs[i].envelope.Some? ==> MessageKey(msgs[i]) != k
  }

  /** A message's event is not lost: the batch's first entry of its key was dead-lettered, or the key is stored and
      Stored was told of it after that. */
  ghost predicate Kept(msgs: seq<Message>, m: Message, stored: set<Key>, dead: set<string>, marked: set<Key>)
    requires m.envelope.Some?
  {
    exists n :: 0 <= n < |msgs| && FirstWithKey(msgs, n, MessageKey(m))
                && (msgs[n].id in dead || (MessageKey(m) in stored && MessageKey(m) in marked))
  }

  ghost predicate AllKept(msgs: seq<Message>, stored: set<Key>, dead: set<string>, marked: set<Key>) {
    forall m :: m in msgs && m.envelope.Some? ==> Kept(msgs, m, stored, dead, marked)
  }

  /** Everything that precedes the acknowledgement of a batch: the first row of each key that joined and was not
      stored before is stored if the event store takes it; it is dead-lettered if the joiner or the event store
      refuses it; and Stored is told of those that joined, once they are stored. */
  method Settle(s: Stores, msgs: seq<Message>, limit: nat) returns (done: bool, told: seq<Row>)
    modifies s`faults, s`cancelled, s`stored, s`dead, s`marked, s`calls
    ensures done ==> told == Accepted(FirstRows(RowsOf(msgs)), s.joinRefuses)
    ensures done ==>
              s.stored == old(s.stored)
                          + AcceptedSet(Unknown(told, RowKey, KeysOf(old(s.stored))), s.insertRefuses)
    ensures done ==>
              var refused := RefusedIds(FirstRows(RowsOf(msgs)), s.joinRefuses)
                             + RefusedIds(Unknown(told, RowKey, KeysOf(old(s.stored))), s.insertRefuses);
              old(s.dead) + refused <= s.dead <= old(s.dead) + refused + Undecodable(msgs)
    ensures done && !s.cancelled ==> Undecodable(msgs) <= s.dead
    ensures done ==> s.marked == old(s.marked) + StoredAmong(told, s.stored)
    ensures !done ==> s.cancelled || RowsOf(msgs) == []
  {
    done, told := false, [];
    var rows := Decode(s, msgs);
    if rows == [] {
      return;
    }
    var ok := Retry(s);
    if !ok {
      return;
    }
    var known := KeysOf(s.stored);
    var unique := UniqueRows(rows);
    ok, told := s.Join(unique);
    if !ok {
      return;
    }
    var unstored := FreshRows(told, known);
    ok := InsertRuns(s, unstored, limit);
    if !ok {
      return;
    }
    done := s.MarkStale(told);
  }

  /** Stores one batch. Its decodable entries are acknowledged only once none of them can be lost, and then they
      are, unless the context ends. */
  method Store(s: Stores, msgs: seq<Message>, limit: nat)
    modifies s
    ensures s.acked == old(s.acked) || s.acked == old(s.acked) + DecodableIds(msgs)
    ensures s.acked == old(s.acked) || AllKept(msgs, KeysOf(s.stored), s.dead, s.marked)
    ensures !s.cancelled ==> s.acked == old(s.acked) + DecodableIds(msgs)
  {
    var done, told := Settle(s, msgs, limit);
    if done {
      BatchIsKept(msgs, s.joinRefuses, s.insertRefuses, old(s.stored), s.stored, s.dead, s.marked, told);
      var _ := s.Acknowledge(DecodableIds(msgs));
    } else {
      RowKeysAre(msgs);
    }
  }

  lemma {:induction false} RowKeysAre(msgs: seq<Message>)
    ensures forall m :: m in msgs && m.envelope.Some? ==> MessageKey(m) in Keys(RowsOf(msgs), RowKey)
  {
    if msgs != [] {
      var before, m := msgs[..|msgs| - 1], msgs[|msgs| - 1];
      RowKeysAre(before);
      assert msgs == before + [m];
      if m.envelope.Some? {
        KeysConcat(RowsOf(before), [ToEvent(m.envelope.value, m.id)], RowKey);
        OneKey(ToEvent(m.envelope.value, m.id), RowKey);
      }
    }
  }

  /** The first message of a key makes the first row of it. */
  lemma {:induction false} FirstRowOf(msgs: seq<Message>, k: Key) returns (n: nat, first: Row)
    requires k in Keys(RowsOf(msgs), RowKey)
    ensures n < |msgs| && FirstWithKey(msgs, n, k)
    ensures first in FirstRows(RowsOf(msgs)) && first.key == k && first.streamId == msgs[n].id
  {
    var before, m := msgs[..|msgs| - 1], msgs[|msgs| - 1];
    if k in Keys(RowsOf(before), RowKey) {
      n, first := FirstRowOf(before, k);
      assert FirstWithKey(msgs, n, k);
    } else {
      n, first := |before|, ToEvent(m.envelope.value, m.id);
      RowKeysAre(before);
      forall i | 0 <= i < n && msgs[i].envelope.Some? ensures MessageKey(msgs[i]) != k {
        assert before[i] == msgs[i] && before[i] in before;
      }
      KeysConcat(RowsOf(before), [first], RowKey);
      OneKey(first, RowKey);
    }
  }

  /** So nothing acknowledged is lost. */
  lemma BatchIsKept(msgs: seq<Message>, joinRefuses: Row -> bool, insertRefuses: Row -> bool, before: set<Row>,
                    after: set<Row>, dead: set<string>, marked: set<Key>, told: seq<Row>)
    requires told == Accepted(FirstRows(RowsOf(msgs)), joinRefuses)
    requires after == before + AcceptedSet(Unknown(told, RowKey, KeysOf(before)), insertRefuses)
    requires RefusedIds(FirstRows(RowsOf(msgs)), joinRefuses) <= dead
    requires RefusedIds(Unknown(told, RowKey, KeysOf(before)), insertRefuses) <= dead
    requires StoredAmong(told, after) <= marked
    ensures AllKept(msgs, KeysOf(after), dead, marked)
  {
    forall m | m in msgs && m.envelope.Some? ensures Kept(msgs, m, KeysOf(after), dead, marked) {
      RowKeysAre(msgs);
      var n, first := FirstRowOf(msgs, MessageKey(m));
      AcceptedMeans(FirstRows(RowsOf(msgs)), joinRefuses);
      UnknownMeans(told, RowKey, KeysOf(before));
      if !joinRefuses(first) {
        if first.key in KeysOf(before) {
          var x :| x in before && x.key == first.key;
          assert x in after;
        } else if !insertRefuses(first) {
          assert first in after;
        }
      }
    }
  }
}
