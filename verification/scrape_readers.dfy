/** Any number of workers reading one project, step by step (internal/scrape/scrape.go, MediaServer;
    internal/scrape/store.go, Swap). A worker swaps its id into a shared value before it reads, and uses
    what it remembers only when that value already named it. The swap may fail with or without having
    taken effect, and any worker may stop at any step. */
module ScrapeReaders {
  import opened Common
  import opened ScrapeRooms

  /** One worker: its memory, and whether it is reading; stale says that when it last swapped in, another
      had done so since its memory was recorded. */
  datatype Worker = Worker(memory: Option<Memory>, reading: bool, stale: bool)

  /** A full read of a room, by a worker, as of a time. */
  datatype FullReadBy = FullReadBy(worker: string, sid: string, at: int, dispatches: string)

  /** A stored sample: whose read it came from, and that read's time. */
  datatype StoredSample = StoredSample(worker: string, at: int, sample: Sample)

  /** A swap that took effect, and whether its worker heard so. */
  datatype Swap = Swap(worker: string, answered: bool)

  /** reader is the shared value, while it lives. The rest is history: the swaps that took effect, the workers
      another has overtaken since their memory was recorded, those with an unanswered swap since then, the
      full reads made and the samples stored. */
  datatype System = System(
    reader: Option<string>, workers: map<string, Worker>, swaps: seq<Swap>, overtaken: set<string>,
    unanswered: set<string>, fulls: set<FullReadBy>, stored: set<StoredSample>)

  // ---- steps ----

  /** Worker w's id is in the shared value: everyone else has been overtaken. */
  function SwappedIn(s: System, w: string, answered: bool): System {
    s.(reader := Some(w), swaps := s.swaps + [Swap(w, answered)],
       overtaken := s.overtaken + (s.workers.Keys - {w}))
  }

  ghost predicate Swaps(s: System, w: string, s': System) {
    && w in s.workers && !s.workers[w].reading
    && var memory := if s.reader == Some(w) then s.workers[w].memory else None;
    s' == SwappedIn(s, w, true).(workers := s.workers[w := Worker(memory, true, w in s.overtaken)])
  }

  /** The swap took effect, and its answer was lost: the read is given up, the memory kept. */
  ghost predicate SwapsUnanswered(s: System, w: string, s': System) {
    && w in s.workers && !s.workers[w].reading
    && s' == SwappedIn(s, w, false).(unanswered := s.unanswered + {w})
  }

  /** The full reads a good read made. */
  function FullsOf(w: string, prev: Option<Memory>, rooms: seq<Room>, named: set<string>, full: seq<FullRead>,
                   now: int, every: int): set<FullReadBy>
    requires |rooms| == |full|
  {
    set i | 0 <= i < |rooms| && !Reuses(prev, rooms[i], named, now, every) && full[i].Full? ::
      FullReadBy(w, rooms[i].sid, now, full[i].dispatches)
  }

  function SamplesOf(w: string, now: int, samples: seq<Sample>): set<StoredSample> {
    set x | x in samples :: StoredSample(w, now, x)
  }

  ghost predicate ReadsWell(
    every: int, s: System, w: string, rooms: seq<Room>, named: set<string>, full: seq<FullRead>, now: int, s': System)
  {
    && w in s.workers && s.workers[w].reading && |rooms| == |full|
    && var prev := s.workers[w].memory;
    var memory := Memory(now, NextRooms(prev, rooms, named, full, now, every, |rooms|));
    && !AnyFailed(prev, rooms, named, full, now, every)
    && s' == s.(
         workers := s.workers[w := Worker(Some(memory), false, false)],
         overtaken := s.overtaken - {w}, unanswered := s.unanswered - {w},
         fulls := s.fulls + FullsOf(w, prev, rooms, named, full, now, every),
         stored := s.stored + SamplesOf(w, now, Samples(prev, rooms, named, full, now, every, |rooms|)))
  }

  /** A failed read forgets; one given up before it began, or by a worker that is stopping, does not. */
  ghost predicate ReadsBadly(s: System, w: string, s': System) {
    && w in s.workers && s.workers[w].reading
    && (|| s' == s.(workers := s.workers[w := Worker(None, false, false)])
        || s' == s.(workers := s.workers[w := Worker(s.workers[w].memory, false, false)]))
  }

  ghost predicate Crashes(s: System, w: string, s': System) {
    w in s.workers && s' == s.(workers := s.workers[w := Worker(None, false, false)])
  }

  /** The shared value outlives its time. */
  ghost predicate Expires(s: System, s': System) {
    s' == s.(reader := None)
  }

  ghost predicate Step(every: int, s: System, w: string, s': System) {
    || Swaps(s, w, s') || SwapsUnanswered(s, w, s') || ReadsBadly(s, w, s') || Crashes(s, w, s') || Expires(s, s')
    || exists rooms, named, full, now :: ReadsWell(every, s, w, rooms, named, full, now, s')
  }

  ghost predicate Run(every: int, states: seq<System>, turns: seq<string>) {
    && |states| == |turns| + 1
    && states[0].reader.None? && states[0].swaps == [] && states[0].fulls == {} && states[0].stored == {}
    && (forall w :: w in states[0].workers ==> states[0].workers[w] == Worker(None, false, false))
    && forall i :: 0 <= i < |turns| ==> Step(every, states[i], turns[i], states[i + 1])
  }

  // ---- what every step keeps ----

  /** Every remembered room was read in full by this worker, when it says. */
  ghost predicate MemoryIsOwn(s: System, w: string, m: Memory) {
    forall sid :: sid in m.rooms ==> FullReadBy(w, sid, m.rooms[sid].fullAt, m.rooms[sid].dispatches) in s.fulls
  }

  ghost predicate WorkerSound(s: System, w: string)
    requires w in s.workers
  {
    var me := s.workers[w];
    && (me.memory.Some? ==> MemoryIsOwn(s, w, me.memory.value))
    && (me.reading && me.stale && me.memory.Some? ==> w in s.unanswered)
    && (s.reader == Some(w) && me.memory.Some? && w in s.overtaken ==> w in s.unanswered)
  }

  /** A sample's dispatches are from a full read by the same worker, less than every before it. */
  ghost predicate FreshSample(every: int, s: System, x: StoredSample) {
    exists f :: f in s.fulls && f.worker == x.worker && f.sid == x.sample.sid && f.dispatches == x.sample.dispatches
                && x.at - f.at < every
  }

  ghost predicate Sound(every: int, s: System) {
    && (forall w :: w in s.workers ==> WorkerSound(s, w))
    && (forall x :: x in s.stored ==> FreshSample(every, s, x))
  }

  lemma {:induction false} SamplesAreFresh(
    s: System, w: string, rooms: seq<Room>, named: set<string>, full: seq<FullRead>, now: int, every: int, n: nat,
    sid: string)
    requires every > 0 && n <= |rooms| == |full| && w in s.workers && WorkerSound(s, w)
    ensures
      var prev := s.workers[w].memory;
      var made := s.fulls + FullsOf(w, prev, rooms, named, full, now, every);
      var next := NextRooms(prev, rooms, named, full, now, every, n);
      && (sid in next ==> FullReadBy(w, sid, next[sid].fullAt, next[sid].dispatches) in made)
      && forall x :: x in Samples(prev, rooms, named, full, now, every, n) ==>
           exists f :: f in made && f.worker == w && f.sid == x.sid && f.dispatches == x.dispatches
                       && now - f.at < every
  {
    if n > 0 {
      SamplesAreFresh(s, w, rooms, named, full, now, every, n - 1, sid);
      var prev, r := s.workers[w].memory, rooms[n - 1];
      var made := s.fulls + FullsOf(w, prev, rooms, named, full, now, every);
      if Reuses(prev, r, named, now, every) {
        assert MemoryIsOwn(s, w, prev.value);
        assert FullReadBy(w, r.sid, prev.value.rooms[r.sid].fullAt, prev.value.rooms[r.sid].dispatches) in made;
      } else if full[n - 1].Full? {
        assert FullReadBy(w, r.sid, now, full[n - 1].dispatches) in made;
      }
    }
  }

  lemma FreshLater(every: int, s: System, s': System)
    requires s.fulls <= s'.fulls
    ensures forall x :: FreshSample(every, s, x) ==> FreshSample(every, s', x)
  {
  }

  lemma ReadsWellKeeps(
    every: int, s: System, w: string, rooms: seq<Room>, named: set<string>, full: seq<FullRead>, now: int, s': System)
    requires every > 0 && Sound(every, s) && ReadsWell(every, s, w, rooms, named, full, now, s')
    ensures Sound(every, s')
  {
    FreshLater(every, s, s');
    var prev := s.workers[w].memory;
    var samples := Samples(prev, rooms, named, full, now, every, |rooms|);
    forall x | x in SamplesOf(w, now, samples) ensures FreshSample(every, s', x) {
      SamplesAreFresh(s, w, rooms, named, full, now, every, |rooms|, x.sample.sid);
    }
    forall v | v in s'.workers ensures WorkerSound(s', v) {
      assert WorkerSound(s, v);
      if v == w {
        var kept := s'.workers[w].memory.value.rooms;
        forall sid | sid in kept ensures FullReadBy(w, sid, kept[sid].fullAt, kept[sid].dispatches) in s'.fulls
        {
          SamplesAreFresh(s, w, rooms, named, full, now, every, |rooms|, sid);
        }
      }
    }
  }

  lemma StepKeeps(every: int, s: System, w: string, s': System)
    requires every > 0 && Sound(every, s) && Step(every, s, w, s')
    ensures Sound(every, s')
  {
    if rooms, named, full, now :| ReadsWell(every, s, w, rooms, named, full, now, s') {
      ReadsWellKeeps(every, s, w, rooms, named, full, now, s');
    } else {
      FreshLater(every, s, s');
      forall v | v in s'.workers ensures WorkerSound(s', v) {
        assert WorkerSound(s, v);
      }
    }
  }

  lemma {:induction false} RunKeeps(every: int, states: seq<System>, turns: seq<string>, n: nat)
    requires every > 0 && Run(every, states, turns) && n < |states|
    ensures Sound(every, states[n])
  {
    if n > 0 {
      RunKeeps(every, states, turns, n - 1);
      StepKeeps(every, states[n - 1], turns[n - 1], states[n]);
    }
  }

  /** In every run, every stored sample carries dispatches its own worker read in full less than FullEvery
      before it. */
  lemma SamplesComeFromFreshReads(every: int, states: seq<System>, turns: seq<string>, n: nat, x: StoredSample)
    requires every > 0 && Run(every, states, turns) && n < |states| && x in states[n].stored
    ensures FreshSample(every, states[n], x)
  {
    RunKeeps(every, states, turns, n);
  }

  /** In every run, a worker goes into a read with memory only if nobody else swapped in since it was
      recorded, unless one of its own swaps since then went unanswered. */
  lemma MemoryIsTheLastRead(every: int, states: seq<System>, turns: seq<string>, n: nat, w: string)
    requires every > 0 && Run(every, states, turns) && n < |states| && w in states[n].workers
    requires states[n].workers[w].reading && states[n].workers[w].memory.Some? && w !in states[n].unanswered
    ensures !states[n].workers[w].stale
  {
    RunKeeps(every, states, turns, n);
    assert WorkerSound(states[n], w);
  }

  // ---- exactly when it is not ----

  /** Whether w heard of its first swap after the last one by another; none if the last swap is another's. */
  function FirstSince(swaps: seq<Swap>, w: string): Option<bool> {
    if swaps == [] || swaps[|swaps| - 1].worker != w then None
    else
      var before := FirstSince(swaps[..|swaps| - 1], w);
      if before.Some? then before else Some(swaps[|swaps| - 1].answered)
  }

  lemma FirstSinceNext(swaps: seq<Swap>, x: Swap, w: string)
    ensures FirstSince(swaps + [x], w)
            == if x.worker != w then None
               else if FirstSince(swaps, w).Some? then FirstSince(swaps, w) else Some(x.answered)
  {
    assert (swaps + [x])[..|swaps|] == swaps;
  }

  predicate FirstUnheard(swaps: seq<Swap>, w: string) {
    FirstSince(swaps, w).Some? && !FirstSince(swaps, w).value
  }

  /** The shared value names the last to swap in. A worker that still has memory after it was overtaken and is
      the last to have swapped in was not heard the first time. */
  ghost predicate Traced(s: System) {
    && (s.reader.Some? ==> s.swaps != [] && s.swaps[|s.swaps| - 1].worker == s.reader.value)
    && forall w :: w in s.workers && s.workers[w].memory.Some? && w in s.overtaken ==>
                     FirstSince(s.swaps, w).None? || FirstUnheard(s.swaps, w)
  }

  lemma SwapTraces(s: System, w: string, s': System)
    requires Traced(s) && (Swaps(s, w, s') || SwapsUnanswered(s, w, s'))
    ensures Traced(s')
  {
    var x := s'.swaps[|s'.swaps| - 1];
    forall v | v in s'.workers && s'.workers[v].memory.Some? && v in s'.overtaken
      ensures FirstSince(s'.swaps, v).None? || FirstUnheard(s'.swaps, v)
    {
      FirstSinceNext(s.swaps, x, v);
    }
  }

  lemma {:induction false} RunTraces(every: int, states: seq<System>, turns: seq<string>, n: nat)
    requires Run(every, states, turns) && n < |states|
    ensures Traced(states[n])
  {
    if n > 0 {
      RunTraces(every, states, turns, n - 1);
      var s, w, s' := states[n - 1], turns[n - 1], states[n];
      assert Step(every, s, w, s');
      if Swaps(s, w, s') || SwapsUnanswered(s, w, s') {
        SwapTraces(s, w, s');
      }
    }
  }

  /** In every run, a worker swaps in and keeps memory older than another's turn if and only if it had memory,
      another overtook it since, the shared value still lives, and of its swaps since the last by another the
      first went unanswered. */
  lemma StaleMemoryIff(every: int, states: seq<System>, turns: seq<string>, n: nat, w: string)
    requires Run(every, states, turns) && n < |turns| && Swaps(states[n], w, states[n + 1])
    ensures var me, s := states[n + 1].workers[w], states[n];
            me.memory.Some? && me.stale
            <==> && s.workers[w].memory.Some? && w in s.overtaken && s.reader.Some?
                 && FirstUnheard(s.swaps, w)
  {
    RunTraces(every, states, turns, n);
    var s := states[n];
    assert FirstSince(s.swaps, w).Some? <==> s.swaps != [] && s.swaps[|s.swaps| - 1].worker == w;
  }

  // ---- and it happens ----

  const ROOMS := [Room("room", 1, 1)]
  const FULLS := [Full("jobs")]

  /** A reads, B swaps in, A's next swap goes unanswered, and the one after finds A in the shared value. */
  function Overlooked(n: nat): System {
    var none := Worker(None, false, false);
    var a := Worker(Some(Memory(0, map["room" := RoomState(1, 1, 0, "jobs")])), false, false);
    var fulls, stored := {FullReadBy("A", "room", 0, "jobs")}, {StoredSample("A", 0, Sample("room", "jobs"))};
    var b := Worker(None, true, true);
    var one := [Swap("A", true)];
    var two := one + [Swap("B", true)];
    var three := two + [Swap("A", false)];
    match n
    case 0 => System(None, map["A" := none, "B" := none], [], {}, {}, {}, {})
    case 1 => System(Some("A"), map["A" := Worker(None, true, false), "B" := none], one, {"B"}, {}, {}, {})
    case 2 => System(Some("A"), map["A" := a, "B" := none], one, {"B"}, {}, fulls, stored)
    case 3 => System(Some("B"), map["A" := a, "B" := b], two, {"A", "B"}, {}, fulls, stored)
    case 4 => System(Some("A"), map["A" := a, "B" := b], three, {"A", "B"}, {"A"}, fulls, stored)
    case _ =>
      System(Some("A"), map["A" := Worker(a.memory, true, true), "B" := b], three + [Swap("A", true)], {"A", "B"},
             {"A"}, fulls, stored)
  }

  lemma FirstRead(every: int)
    requires every > 0
    ensures ReadsWell(every, Overlooked(1), "A", ROOMS, {}, FULLS, 0, Overlooked(2))
  {
    assert FullsOf("A", None, ROOMS, {}, FULLS, 0, every) == {FullReadBy("A", "room", 0, "jobs")} by {
      assert !Reuses(None, ROOMS[0], {}, 0, every) && FULLS[0].Full?;
    }
    assert Samples(None, ROOMS, {}, FULLS, 0, every, 1) == [Sample("room", "jobs")];
    assert SamplesOf("A", 0, [Sample("room", "jobs")]) == {StoredSample("A", 0, Sample("room", "jobs"))} by {
      assert Sample("room", "jobs") in [Sample("room", "jobs")];
    }
    assert NextRooms(None, ROOMS, {}, FULLS, 0, every, 1) == map["room" := RoomState(1, 1, 0, "jobs")];
  }

  const TURNS := ["A", "A", "B", "A", "A"]

  lemma OverlookedStep(every: int, n: nat)
    requires every > 0 && n < 5
    ensures Step(every, Overlooked(n), TURNS[n], Overlooked(n + 1))
  {
    match n
    case 0 => assert Swaps(Overlooked(0), "A", Overlooked(1));
    case 1 => FirstRead(every);
    case 2 => assert Swaps(Overlooked(2), "B", Overlooked(3));
    case 3 => assert SwapsUnanswered(Overlooked(3), "A", Overlooked(4));
    case _ => assert Swaps(Overlooked(4), "A", Overlooked(5));
  }

  /** A worker can go into a read with memory older than another worker's turn. */
  lemma UnansweredSwapHidesAReader(every: int)
    requires every > 0
    ensures exists states: seq<System>, turns: seq<string> ::
              && Run(every, states, turns)
              && var a := states[|turns|].workers;
                 && "A" in a && a["A"].reading && a["A"].stale
                 && a["A"].memory.Some? && "room" in a["A"].memory.value.rooms
  {
    var states := seq(6, n requires 0 <= n => Overlooked(n));
    forall i | 0 <= i < |TURNS| ensures Step(every, states[i], TURNS[i], states[i + 1]) {
      OverlookedStep(every, i);
    }
    assert Run(every, states, TURNS);
  }
}
