/** Stream entries and the rows made of them (internal/sink/sink.go, toEvent). */
module SinkRows {
  /** What a row is folded by in the events table. */
  datatype Key = Key(organisation: string, project: string, kind: string, dedupe: string)

  /** A row about to be stored: its key, the entry it came from and its payload size in bytes. */
  datatype Row = Row(key: Key, streamId: string, size: nat)

  /** A decoded entry's envelope; id is empty when the source numbered no events. */
  datatype Envelope = Envelope(organisation: string, project: string, kind: string, id: string, size: nat)

  const ENTRY_PREFIX := "entry:"

  function ToEvent(e: Envelope, entryId: string): Row {
    Row(
      Key(e.organisation, e.project, e.kind, if e.id == "" then ENTRY_PREFIX + entryId else e.id),
      entryId,
      e.size)
  }

  /** Entries collapse only within one organisation, project and kind: two without an event id only when they
      are one entry, and two with event ids only when those are equal. The one crossing is a source that sends
      "entry:<id>" as its own event id. */
  lemma KeysCollapseExactly(a: Envelope, aId: string, b: Envelope, bId: string)
    ensures ToEvent(a, aId).key == ToEvent(b, bId).key
            <==> && a.organisation == b.organisation && a.project == b.project && a.kind == b.kind
                 && (|| (a.id == "" && b.id == "" && aId == bId)
                     || (a.id != "" && b.id != "" && a.id == b.id)
                     || (a.id == "" && b.id == "entry:" + aId)
                     || (b.id == "" && a.id == "entry:" + bId))
  {
    var ka, kb := ToEvent(a, aId).key.dedupe, ToEvent(b, bId).key.dedupe;
    assert (ENTRY_PREFIX + aId)[6..] == aId && (ENTRY_PREFIX + bId)[6..] == bId;
  }

  // ----- repeats and rows already stored -----

  function Keys<T(==)>(xs: seq<T>, key: T -> Key): set<Key> {
    set x | x in xs :: key(x)
  }

  /** The first item of each key, in order. */
  function FirstOfEachKey<T(==)>(xs: seq<T>, key: T -> Key): seq<T> {
    if xs == [] then []
    else
      var before, x := xs[..|xs| - 1], xs[|xs| - 1];
      if key(x) in Keys(before, key) then FirstOfEachKey(before, key) else FirstOfEachKey(before, key) + [x]
  }

  /** The items whose key is not known, in order. */
  function Unknown<T>(xs: seq<T>, key: T -> Key, known: set<Key>): seq<T> {
    if xs == [] then []
    else
      var before, x := Unknown(xs[..|xs| - 1], key, known), xs[|xs| - 1];
      if key(x) in known then before else before + [x]
  }

  /** ys are the items of xs at these places, in order. */
  ghost predicate Picked<T>(xs: seq<T>, ys: seq<T>, at: seq<nat>) {
    && |at| == |ys|
    && (forall i :: 0 <= i < |at| ==> at[i] < |xs| && ys[i] == xs[at[i]])
    && (forall i, j :: 0 <= i < j < |at| ==> at[i] < at[j])
  }

  lemma PickedMore<T>(xs: seq<T>, ys: seq<T>, at: seq<nat>, x: T)
    requires Picked(xs, ys, at)
    ensures Picked(xs + [x], ys, at) && Picked(xs + [x], ys + [x], at + [|xs|])
    ensures |xs| !in at
    ensures forall m :: m in at + [|xs|] <==> m in at || m == |xs|
  {
  }

  /** The nth item is the first with its key. */
  predicate NewKey<T>(xs: seq<T>, key: T -> Key, n: nat)
    requires n < |xs|
  {
    forall m :: 0 <= m < n ==> key(xs[m]) != key(xs[n])
  }

  lemma NewKeyMeans<T>(xs: seq<T>, key: T -> Key, n: nat)
    requires n < |xs|
    ensures NewKey(xs, key, n) <==> key(xs[n]) !in Keys(xs[..n], key)
  {
    forall m | 0 <= m < n ensures key(xs[m]) in Keys(xs[..n], key) {
      assert xs[..n][m] in xs[..n];
    }
  }

  lemma NewKeyBefore<T>(xs: seq<T>, key: T -> Key, n: nat, k: nat)
    requires n < k <= |xs|
    ensures NewKey(xs[..k], key, n) <==> NewKey(xs, key, n)
  {
    assert forall m :: 0 <= m <= n ==> xs[..k][m] == xs[m];
  }

  /** What is kept of each key is its first item, in order. */
  lemma {:induction false} FirstOfEachKeyIs<T>(xs: seq<T>, key: T -> Key) returns (at: seq<nat>)
    ensures Picked(xs, FirstOfEachKey(xs, key), at)
    ensures forall n :: 0 <= n < |xs| ==> (n in at <==> NewKey(xs, key, n))
  {
    at := [];
    if xs != [] {
      var before, x := xs[..|xs| - 1], xs[|xs| - 1];
      var rest := FirstOfEachKeyIs(before, key);
      PickedMore(before, FirstOfEachKey(before, key), rest, x);
      NewKeyMeans(xs, key, |before|);
      assert xs == before + [x];
      at := if NewKey(xs, key, |before|) then rest + [|before|] else rest;
      forall n | 0 <= n < |before| ensures NewKey(xs, key, n) <==> NewKey(before, key, n) {
        NewKeyBefore(xs, key, n, |before|);
      }
    }
  }

  /** What is not known stays, in order. */
  lemma {:induction false} UnknownIs<T>(xs: seq<T>, key: T -> Key, known: set<Key>) returns (at: seq<nat>)
    ensures Picked(xs, Unknown(xs, key, known), at)
    ensures forall n :: 0 <= n < |xs| ==> (n in at <==> key(xs[n]) !in known)
  {
    at := [];
    if xs != [] {
      var before, x := xs[..|xs| - 1], xs[|xs| - 1];
      var rest := UnknownIs(before, key, known);
      PickedMore(before, Unknown(before, key, known), rest, x);
      assert xs == before + [x];
      at := if key(x) in known then rest else rest + [|before|];
    }
  }

  lemma KeysConcat<T>(a: seq<T>, b: seq<T>, key: T -> Key)
    ensures Keys(a + b, key) == Keys(a, key) + Keys(b, key)
  {
  }

  lemma OneKey<T>(x: T, key: T -> Key)
    ensures Keys([x], key) == {key(x)}
  {
    assert x in [x];
  }

  lemma {:induction false} FirstHaveEachKey<T>(xs: seq<T>, key: T -> Key)
    ensures Keys(FirstOfEachKey(xs, key), key) == Keys(xs, key)
    ensures forall x :: x in FirstOfEachKey(xs, key) ==> x in xs
  {
    if xs != [] {
      var before, x := xs[..|xs| - 1], xs[|xs| - 1];
      FirstHaveEachKey(before, key);
      assert xs == before + [x];
      var first := FirstOfEachKey(xs, key);
      forall k | k in Keys(xs, key) ensures k in Keys(first, key) {
        if k in Keys(before, key) {
          var y :| y in FirstOfEachKey(before, key) && key(y) == k;
          assert y in first;
        } else {
          assert x in first;
        }
      }
    }
  }

  lemma {:induction false} UnknownMeans<T>(xs: seq<T>, key: T -> Key, known: set<Key>)
    ensures forall x :: x in Unknown(xs, key, known) <==> x in xs && key(x) !in known
  {
    if xs != [] {
      UnknownMeans(xs[..|xs| - 1], key, known);
      assert xs == xs[..|xs| - 1] + [xs[|xs| - 1]];
    }
  }
}
