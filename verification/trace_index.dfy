/** The call index as the joiner uses it: finding the call a reference names, and joining the items that
    share one reference to it (internal/join/spans.go, internal/store/pgstore/queries.sql). Times are
    nanoseconds; None is a time nobody reported. */
module TraceIndex {
  import opened Common

  /** The ids by which spans look for their call. An empty one is absent; without a room the job decides. */
  datatype Ref = Ref(room: string, job: string)

  datatype Call = Call(room: string, job: string, started: Option<int>, ended: Option<int>,
                       activity: Option<int>, firstSeen: Option<int>)

  /** A call's id is its place; calls are never taken out. */
  type Index = seq<Call>

  datatype Window = Window(start: Option<int>, end: Option<int>)

  const STALE_AFTER := 60_000_000_000

  function Latest(a: Option<int>, b: Option<int>): Option<int> {
    if a.None? || (b.Some? && b.value > a.value) then b else a
  }

  function Earliest(a: Option<int>, b: Option<int>): Option<int> {
    if a.None? || (b.Some? && b.value < a.value) then b else a
  }

  /** The latest of an optional time and a set of times, whatever the order they came in. */
  ghost predicate IsLatest(o: Option<int>, s: set<int>, r: Option<int>) {
    && (r.None? <==> o.None? && s == {})
    && (r.Some? ==> (r == o || r.value in s) && (o.Some? ==> o.value <= r.value) && forall x :: x in s ==> x <= r.value)
  }

  ghost predicate IsEarliest(o: Option<int>, s: set<int>, r: Option<int>) {
    && (r.None? <==> o.None? && s == {})
    && (r.Some? ==> (r == o || r.value in s) && (o.Some? ==> o.value >= r.value) && forall x :: x in s ==> x >= r.value)
  }

  lemma LatestOfBoth(o: Option<int>, s: set<int>, a: Option<int>, t: set<int>, b: Option<int>)
    requires IsLatest(o, s, a) && IsLatest(None, t, b)
    ensures IsLatest(o, s + t, Latest(a, b))
  {
    assert s + t == {} <==> s == {} && t == {};
  }

  lemma EarliestOfBoth(o: Option<int>, s: set<int>, a: Option<int>, t: set<int>, b: Option<int>)
    requires IsEarliest(o, s, a) && IsEarliest(None, t, b)
    ensures IsEarliest(o, s + t, Earliest(a, b))
  {
    assert s + t == {} <==> s == {} && t == {};
  }

  function Reported(o: Option<int>): set<int> {
    if o.None? then {} else {o.value}
  }

  // ----- finding a call -----

  function ByRoom(ix: Index, room: string): (r: Option<nat>)
    ensures r.Some? ==> r.value < |ix| && ix[r.value].room == room
    ensures r.None? ==> forall c :: 0 <= c < |ix| ==> ix[c].room != room
  {
    if ix == [] then None
    else
      var before := ByRoom(ix[..|ix| - 1], room);
      if before.None? && ix[|ix| - 1].room == room then Some(|ix| - 1) else before
  }

  /** Started later, a call that reported no start counting as the earliest. */
  predicate StartsAfter(a: Call, b: Call) {
    a.started.Some? && (b.started.None? || a.started.value > b.started.value)
  }

  function ByJob(ix: Index, job: string): (r: Option<nat>)
    ensures r.Some? ==> r.value < |ix| && ix[r.value].job == job
    ensures r.Some? ==> forall c :: 0 <= c < |ix| && ix[c].job == job ==> !StartsAfter(ix[c], ix[r.value])
    ensures r.None? ==> forall c :: 0 <= c < |ix| ==> ix[c].job != job
  {
    if ix == [] then None
    else
      var before, last := ByJob(ix[..|ix| - 1], job), |ix| - 1;
      if ix[last].job == job && (before.None? || StartsAfter(ix[last], ix[before.value])) then Some(last) else before
  }

  function Find(ix: Index, k: Ref): (r: Option<nat>)
    ensures r.Some? ==> r.value < |ix|
  {
    if k.room != "" then ByRoom(ix, k.room) else ByJob(ix, k.job)
  }

  function EndedAt(ix: Index, k: Ref): Option<int> {
    var f := Find(ix, k);
    if f.None? then None else ix[f.value].ended
  }

  // ----- joining items to it -----

  /** A span may start up to a minute after its call ended. */
  predicate Fresh(ended: Option<int>, start: Option<int>) {
    !(ended.Some? && start.Some? && start.value > ended.value + STALE_AFTER)
  }

  function LatestEnd(ended: Option<int>, items: seq<Window>): Option<int> {
    if items == [] then None
    else
      var before, w := LatestEnd(ended, items[..|items| - 1]), items[|items| - 1];
      if Fresh(ended, w.start) then Latest(before, w.end) else before
  }

  function EarliestStart(ended: Option<int>, items: seq<Window>): Option<int> {
    if items == [] then None
    else
      var before, w := EarliestStart(ended, items[..|items| - 1]), items[|items| - 1];
      if Fresh(ended, w.start) then Earliest(before, w.start) else before
  }

  predicate AnyFresh(ended: Option<int>, items: seq<Window>) {
    exists n :: 0 <= n < |items| && Fresh(ended, items[n].start)
  }

  /** The index once items that share k have joined: their call learns a job id it did not have, the latest
      activity and the earliest sighting, and is opened if no source has. */
  function Joined(ix: Index, k: Ref, items: seq<Window>): Index {
    var f, ended := Find(ix, k), EndedAt(ix, k);
    var activity, seen := LatestEnd(ended, items), EarliestStart(ended, items);
    if !AnyFresh(ended, items) then ix
    else if f.None? then ix + [Call(k.room, k.job, None, None, activity, seen)]
    else
      var c := ix[f.value];
      ix[f.value := c.(job := if k.room != "" && c.job == "" then k.job else c.job,
                       activity := Latest(c.activity, activity), firstSeen := Earliest(c.firstSeen, seen))]
  }

  function TimeOf(w: Window, ends: bool): Option<int> {
    if ends then w.end else w.start
  }

  /** The ends, or the starts, that items which are not stale report. */
  function Times(ended: Option<int>, items: seq<Window>, ends: bool): set<int> {
    set n | 0 <= n < |items| && Fresh(ended, items[n].start) && TimeOf(items[n], ends).Some? ::
      TimeOf(items[n], ends).value
  }

  lemma {:induction false} LatestEndIsLatest(ended: Option<int>, items: seq<Window>)
    ensures IsLatest(None, Times(ended, items, true), LatestEnd(ended, items))
  {
    if items != [] {
      var before, w := items[..|items| - 1], items[|items| - 1];
      LatestEndIsLatest(ended, before);
      var last := if Fresh(ended, w.start) then Reported(w.end) else {};
      assert Times(ended, items, true) == Times(ended, before, true) + last;
      LatestOfBoth(None, Times(ended, before, true), LatestEnd(ended, before), last,
                   if last == {} then None else w.end);
    }
  }

  lemma {:induction false} EarliestStartIsEarliest(ended: Option<int>, items: seq<Window>)
    ensures IsEarliest(None, Times(ended, items, false), EarliestStart(ended, items))
  {
    if items != [] {
      var before, w := items[..|items| - 1], items[|items| - 1];
      EarliestStartIsEarliest(ended, before);
      var last := if Fresh(ended, w.start) then Reported(w.start) else {};
      assert Times(ended, items, false) == Times(ended, before, false) + last;
      EarliestOfBoth(None, Times(ended, before, false), EarliestStart(ended, before), last,
                     if last == {} then None else w.start);
    }
  }

  // ----- what joining leaves alone -----

  /** Calls keep their room, start and end; new ones have neither start nor end. */
  ghost predicate Grown(from: Index, to: Index) {
    && |from| <= |to|
    && (forall c :: 0 <= c < |from| ==>
                      to[c].room == from[c].room && to[c].started == from[c].started && to[c].ended == from[c].ended)
    && (forall c :: |from| <= c < |to| ==> to[c].started.None? && to[c].ended.None?)
  }

  ghost predicate OneCallPerRoom(ix: Index) {
    forall c, d :: 0 <= c < d < |ix| && ix[c].room != "" ==> ix[c].room != ix[d].room
  }

  lemma JoinedGrows(ix: Index, k: Ref, items: seq<Window>)
    ensures Grown(ix, Joined(ix, k, items))
    ensures OneCallPerRoom(ix) ==> OneCallPerRoom(Joined(ix, k, items))
  {
  }

  lemma {:induction false} SameRoomCall(ix: Index, to: Index, room: string)
    requires Grown(ix, to) && ByRoom(ix, room).Some?
    ensures ByRoom(to, room) == ByRoom(ix, room)
    decreases |to|
  {
    var n := |to| - 1;
    if |to| > |ix| {
      SameRoomCall(ix, to[..n], room);
    } else if ByRoom(ix[..n], room).Some? {
      SameRoomCall(ix[..n], to[..n], room);
    } else {
      assert ByRoom(to[..n], room).None?;
    }
  }

  /** A job keeps its call when none of its calls change jobs and no other call takes or brings the job. */
  lemma {:induction false} SameJobCall(ix: Index, to: Index, job: string)
    requires Grown(ix, to) && ByJob(ix, job).Some?
    requires forall c :: 0 <= c < |ix| ==> (to[c].job == job <==> ix[c].job == job)
    requires forall c :: |ix| <= c < |to| ==> to[c].job != job
    ensures ByJob(to, job) == ByJob(ix, job)
    decreases |to|
  {
    var n := |to| - 1;
    if |to| > |ix| {
      SameJobCall(ix, to[..n], job);
    } else if ByJob(ix[..n], job).Some? {
      SameJobCall(ix[..n], to[..n], job);
    } else {
      assert ByJob(to[..n], job).None?;
    }
  }

  /** Once items joined, their reference finds the call they joined. */
  lemma JoinedIsFound(ix: Index, k: Ref, items: seq<Window>)
    requires k != Ref("", "") && AnyFresh(EndedAt(ix, k), items)
    ensures Find(Joined(ix, k, items), k) == if Find(ix, k).Some? then Find(ix, k) else Some(|ix|)
    ensures EndedAt(Joined(ix, k, items), k) == EndedAt(ix, k)
  {
    var to := Joined(ix, k, items);
    if Find(ix, k).Some? {
      if k.room != "" {
        SameRoomCall(ix, to, k.room);
      } else {
        SameJobCall(ix, to, k.job);
      }
    } else {
      assert to[..|ix|] == ix;
    }
  }

  /** A reference that was joined keeps its call while others are joined after it, rooms before jobs. */
  lemma OthersKeepTheirCall(ix: Index, k: Ref, items: seq<Window>, other: Ref)
    requires k != other && Find(ix, other).Some?
    requires other.room != "" || k.room == ""
    ensures Find(Joined(ix, k, items), other) == Find(ix, other)
  {
    if other.room != "" {
      SameRoomCall(ix, Joined(ix, k, items), other.room);
    } else {
      SameJobCall(ix, Joined(ix, k, items), other.job);
    }
  }
}
