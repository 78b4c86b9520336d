/** One worker's read of one project's rooms, reusing what its last read found
    (internal/scrape/scrape.go, readMediaServer, snapshot, remember, forget). */
module ScrapeRooms {
  import opened Common

  /** A listed room. */
  datatype Room = Room(sid: string, participants: nat, publishers: nat)

  /** A room as a read left it: its counts, when it was last read in full and what that found. */
  datatype RoomState = RoomState(participants: nat, publishers: nat, fullAt: int, dispatches: string)

  datatype Memory = Memory(readAt: int, rooms: map<string, RoomState>)

  /** What reading a room in full answers, when it is asked. */
  datatype FullRead = Failed | Gone | Full(dispatches: string)

  datatype Sample = Sample(sid: string, dispatches: string)

  predicate Remembers(prev: Option<Memory>, sid: string) {
    prev.Some? && sid in prev.value.rooms
  }

  /** The room is unchanged since it was last read in full, less than every ago, and no webhook named it. */
  predicate Reuses(prev: Option<Memory>, r: Room, named: set<string>, now: int, every: int) {
    && Remembers(prev, r.sid) && r.sid !in named
    && var st := prev.value.rooms[r.sid];
    st.participants == r.participants && st.publishers == r.publishers && now - st.fullAt < every
  }

  /** What is remembered of the first n rooms. */
  function NextRooms(prev: Option<Memory>, rooms: seq<Room>, named: set<string>, full: seq<FullRead>, now: int,
                     every: int, n: nat): map<string, RoomState>
    requires n <= |rooms| == |full|
  {
    if n == 0 then map[]
    else
      var r, before := rooms[n - 1], NextRooms(prev, rooms, named, full, now, every, n - 1);
      if Reuses(prev, r, named, now, every) then before[r.sid := prev.value.rooms[r.sid]]
      else match full[n - 1]
           case Full(d) => before[r.sid := RoomState(r.participants, r.publishers, now, d)]
           case _ => before
  }

  /** The samples of the first n rooms; a room that ended after it was listed has none. */
  function Samples(prev: Option<Memory>, rooms: seq<Room>, named: set<string>, full: seq<FullRead>, now: int,
                   every: int, n: nat): seq<Sample>
    requires n <= |rooms| == |full|
  {
    if n == 0 then []
    else
      var r, before := rooms[n - 1], Samples(prev, rooms, named, full, now, every, n - 1);
      if Reuses(prev, r, named, now, every) then before + [Sample(r.sid, prev.value.rooms[r.sid].dispatches)]
      else match full[n - 1]
           case Full(d) => before + [Sample(r.sid, d)]
           case _ => before
  }

  /** A room that had to be read in full could not be. */
  predicate AnyFailed(prev: Option<Memory>, rooms: seq<Room>, named: set<string>, full: seq<FullRead>, now: int,
                      every: int)
    requires |rooms| == |full|
  {
    exists i :: 0 <= i < |rooms| && !Reuses(prev, rooms[i], named, now, every) && full[i].Failed?
  }

  /** One worker's memory of one project. */
  class Scraper {
    const fullEvery: int
    var seen: Option<Memory>

    constructor (fullEvery: int)
      ensures this.fullEvery == fullEvery && seen == None
    {
      this.fullEvery := fullEvery;
      seen := None;
    }

    method Forget()
      modifies this
      ensures seen == None
    {
      seen := None;
    }

    method ReadMediaServer(rooms: seq<Room>, named: set<string>, full: seq<FullRead>, now: int)
      returns (ok: bool, samples: seq<Sample>)
      requires |rooms| == |full|
      modifies this
      ensures ok == !AnyFailed(old(seen), rooms, named, full, now, fullEvery)
      ensures !ok ==> seen == old(seen)
      ensures ok ==> seen == Some(Memory(now, NextRooms(old(seen), rooms, named, full, now, fullEvery, |rooms|)))
      ensures ok ==> samples == Samples(old(seen), rooms, named, full, now, fullEvery, |rooms|)
    {
      var prev := seen;
      samples := [];
      for i := 0 to |rooms|
        invariant forall k :: 0 <= k < i ==> Reuses(prev, rooms[k], named, now, fullEvery) || !full[k].Failed?
        invariant seen == old(seen)
      {
        if !Reuses(prev, rooms[i], named, now, fullEvery) && full[i].Failed? {
          return false, [];
        }
      }
      var next: map<string, RoomState> := map[];
      for i := 0 to |rooms|
        invariant next == NextRooms(prev, rooms, named, full, now, fullEvery, i)
        invariant samples == Samples(prev, rooms, named, full, now, fullEvery, i)
      {
        var r := rooms[i];
        if Reuses(prev, r, named, now, fullEvery) {
          next := next[r.sid := prev.value.rooms[r.sid]];
          samples := samples + [Sample(r.sid, prev.value.rooms[r.sid].dispatches)];
        } else if full[i].Full? {
          next := next[r.sid := RoomState(r.participants, r.publishers, now, full[i].dispatches)];
          samples := samples + [Sample(r.sid, full[i].dispatches)];
        }
      }
      seen := Some(Memory(now, next));
      ok := true;
    }
  }

  /** The read that remembers nothing and reads every room in full. */
  function SimpleSamples(rooms: seq<Room>, full: seq<FullRead>, now: int, n: nat): seq<Sample>
    requires n <= |rooms| == |full|
  {
    Samples(None, rooms, {}, full, now, 0, n)
  }

  /** Whether a room is one the last read left as it is: remembered with these counts, read in full less than every
      ago, and named by no webhook since. */
  predicate Known(prev: Option<Memory>, r: Room, named: set<string>, now: int, every: int) {
    && prev.Some? && r.sid in prev.value.rooms && r.sid !in named
    && prev.value.rooms[r.sid].participants == r.participants && prev.value.rooms[r.sid].publishers == r.publishers
    && now < prev.value.rooms[r.sid].fullAt + every
  }

  /** A good read asks in full about every room but those it knows: each is sampled and remembered as found, or left
      out if it has gone. One it knows is sampled as remembered, whatever asking would have found. */
  lemma {:induction false} WhichRoomsAreRead(
    prev: Option<Memory>, rooms: seq<Room>, named: set<string>, full: seq<FullRead>, now: int, every: int, n: nat,
    i: nat)
    requires i < n <= |rooms| == |full| && !AnyFailed(prev, rooms, named, full, now, every)
    ensures var samples := Samples(prev, rooms, named, full, now, every, n);
            && (Known(prev, rooms[i], named, now, every) ==>
                  Sample(rooms[i].sid, prev.value.rooms[rooms[i].sid].dispatches) in samples)
            && (!Known(prev, rooms[i], named, now, every) ==>
                  && !full[i].Failed?
                  && (full[i].Full? ==> Sample(rooms[i].sid, full[i].dispatches) in samples))
    ensures (forall j :: i < j < n ==> rooms[j].sid != rooms[i].sid) ==>
              var next := NextRooms(prev, rooms, named, full, now, every, n);
              && (Known(prev, rooms[i], named, now, every) ==>
                    rooms[i].sid in next && next[rooms[i].sid] == prev.value.rooms[rooms[i].sid])
              && (!Known(prev, rooms[i], named, now, every) && full[i].Full? ==>
                    && rooms[i].sid in next
                    && next[rooms[i].sid]
                       == RoomState(rooms[i].participants, rooms[i].publishers, now, full[i].dispatches))
  {
    if i < n - 1 {
      WhichRoomsAreRead(prev, rooms, named, full, now, every, n - 1, i);
    }
  }

  /** And nothing else is sampled or remembered. */
  lemma {:induction false} OnlyListedRooms(
    prev: Option<Memory>, rooms: seq<Room>, named: set<string>, full: seq<FullRead>, now: int, every: int, n: nat)
    requires n <= |rooms| == |full|
    ensures |Samples(prev, rooms, named, full, now, every, n)| <= n
    ensures forall x :: x in Samples(prev, rooms, named, full, now, every, n) ==>
                          exists i :: 0 <= i < n && rooms[i].sid == x.sid
    ensures forall sid :: sid in NextRooms(prev, rooms, named, full, now, every, n) ==>
                            exists i :: 0 <= i < n && rooms[i].sid == sid
  {
    if n > 0 {
      OnlyListedRooms(prev, rooms, named, full, now, every, n - 1);
    }
  }

  /** What the room's last full read found is what reading it in full would find now. */
  predicate StillSo(prev: Option<Memory>, rooms: seq<Room>, full: seq<FullRead>, i: nat)
    requires i < |rooms| == |full|
  {
    Remembers(prev, rooms[i].sid) && full[i] == Full(prev.value.rooms[rooms[i].sid].dispatches)
  }

  lemma {:induction false} NoFewerThanSimple(
    prev: Option<Memory>, rooms: seq<Room>, named: set<string>, full: seq<FullRead>, now: int, every: int, n: nat)
    requires n <= |rooms| == |full|
    ensures |Samples(prev, rooms, named, full, now, every, n)| >= |SimpleSamples(rooms, full, now, n)|
  {
    if n > 0 {
      NoFewerThanSimple(prev, rooms, named, full, now, every, n - 1);
    }
  }

  lemma SameLast<T>(a: seq<T>, x: T, b: seq<T>, y: T)
    ensures a + [x] == b + [y] <==> a == b && x == y
  {
    if a + [x] == b + [y] {
      assert (a + [x])[..|a|] == a && (b + [y])[..|b|] == b;
      assert (a + [x])[|a|] == x && (b + [y])[|b|] == y;
    }
  }

  /** Reusing what is remembered gives exactly the samples of reading every room in full if and only if every
      room reused would still be found as it was. */
  lemma {:induction false} ReuseMatchesSimpleReadIff(
    prev: Option<Memory>, rooms: seq<Room>, named: set<string>, full: seq<FullRead>, now: int, every: int, n: nat)
    requires n <= |rooms| == |full|
    ensures Samples(prev, rooms, named, full, now, every, n) == SimpleSamples(rooms, full, now, n)
            <==> forall i :: 0 <= i < n && Reuses(prev, rooms[i], named, now, every) ==> StillSo(prev, rooms, full, i)
  {
    if n > 0 {
      ReuseMatchesSimpleReadIff(prev, rooms, named, full, now, every, n - 1);
      NoFewerThanSimple(prev, rooms, named, full, now, every, n - 1);
      var r, fast := rooms[n - 1], Samples(prev, rooms, named, full, now, every, n - 1);
      var simple := SimpleSamples(rooms, full, now, n - 1);
      if full[n - 1].Full? {
        var found := Sample(r.sid, full[n - 1].dispatches);
        if Reuses(prev, r, named, now, every) {
          SameLast(fast, Sample(r.sid, prev.value.rooms[r.sid].dispatches), simple, found);
        } else {
          SameLast(fast, found, simple, found);
        }
      }
    }
  }
}
