/** Joining one trace export to its calls (internal/join/spans.go): each span by its own ids, room SIDs
    before jobs, in place. */
module TraceJoin {
  import opened Common
  import opened TraceIndex

  datatype Span = Span(trace: string, roomId: string, jobId: string, lkRoomSid: string, lkJobId: string,
                       start: Option<int>, end: Option<int>, call: Option<nat>)

  function FirstOf(a: string, b: string): string {
    if a != "" then a else b
  }

  /** The reference a span's own ids make: the plain ids go before LiveKit's, and at each rank the room's before the
      job's. */
  function SpanRef(sp: Span): Ref {
    if sp.roomId != "" then Ref(sp.roomId, FirstOf(sp.jobId, sp.lkJobId))
    else if sp.jobId != "" then Ref("", sp.jobId)
    else if sp.lkRoomSid != "" then Ref(sp.lkRoomSid, sp.lkJobId)
    else Ref("", sp.lkJobId)
  }

  const NO_REF := Ref("", "")

  // ----- what an export comes to -----

  /** The call a span belongs to by the index as it stands, unless it starts too long after that call's end. */
  function CallOf(ix: Index, sp: Span): Option<nat> {
    var k := SpanRef(sp);
    if k != NO_REF && Fresh(EndedAt(ix, k), sp.start) then Find(ix, k) else None
  }

  function SpanTime(sp: Span, ends: bool): Option<int> {
    if ends then sp.end else sp.start
  }

  /** The ends, or the starts, that a call's spans report. */
  function TimesOf(spans: seq<Span>, c: nat, ends: bool): set<int> {
    set i | 0 <= i < |spans| && spans[i].call == Some(c) && SpanTime(spans[i], ends).Some? ::
      SpanTime(spans[i], ends).value
  }

  function Before(from: Index, c: nat): Call {
    if c < |from| then from[c] else Call("", "", None, None, None, None)
  }

  /** Some span of k starts no more than a minute after the end its call had before the export. */
  ghost predicate SomeFresh(from: Index, spans: seq<Span>, k: Ref) {
    exists i :: 0 <= i < |spans| && SpanRef(spans[i]) == k && Fresh(EndedAt(from, k), spans[i].start)
  }

  /** The job an export brings a room: that of the first reference to the room that names a job and has a span
      that is not stale. */
  ghost function JobBrought(from: Index, done: seq<Ref>, spans: seq<Span>, room: string): string {
    if done == [] then ""
    else
      var before, k := JobBrought(from, done[..|done| - 1], spans, room), done[|done| - 1];
      if before == "" && k.room == room && SomeFresh(from, spans, k) then k.job else before
  }

  /** Spans whose reference is done carry their call; the others carry none. */
  ghost predicate Assigned(ix: Index, spans: seq<Span>, done: seq<Ref>) {
    && (forall k :: k in done ==> k != NO_REF && Find(ix, k).Some?)
    && (forall i :: 0 <= i < |spans| ==>
                      spans[i].call == if SpanRef(spans[i]) in done then CallOf(ix, spans[i]) else None)
  }

  /** A call's activity and first sighting are those it had and those its spans report, in any order. */
  ghost predicate Timed(from: Index, ix: Index, spans: seq<Span>)
    requires Grown(from, ix)
  {
    forall c :: 0 <= c < |ix| ==>
                  && IsLatest(Before(from, c).activity, TimesOf(spans, c, true), ix[c].activity)
                  && IsEarliest(Before(from, c).firstSeen, TimesOf(spans, c, false), ix[c].firstSeen)
  }

  ghost predicate HiredAt(from: Index, ix: Index, spans: seq<Span>, done: seq<Ref>, c: nat)
    requires c < |ix|
  {
    ix[c].job == FirstOf(Before(from, c).job, JobBrought(from, done, spans, ix[c].room))
  }

  /** A room's call has the job it had or the one it was brought; a call without a room was opened for a job
      no other call has. */
  ghost predicate Hired(from: Index, ix: Index, spans: seq<Span>, done: seq<Ref>)
    requires Grown(from, ix)
  {
    && (forall c :: 0 <= c < |ix| && ix[c].room != "" ==> HiredAt(from, ix, spans, done, c))
    && (forall c :: 0 <= c < |from| && from[c].room == "" ==> ix[c].job == from[c].job)
    && (forall c :: |from| <= c < |ix| && ix[c].room == "" ==>
                      Ref("", ix[c].job) in done && forall d :: 0 <= d < |ix| && d != c ==> ix[d].job != ix[c].job)
  }

  ghost predicate Settled(from: Index, ix: Index, spans: seq<Span>, done: seq<Ref>) {
    && OneCallPerRoom(from) && OneCallPerRoom(ix)
    && Grown(from, ix) && Assigned(ix, spans, done) && Timed(from, ix, spans) && Hired(from, ix, spans, done)
  }

  // ----- one reference -----

  ghost predicate IndicesOf(spans: seq<Span>, k: Ref, idx: seq<nat>) {
    && (forall n :: 0 <= n < |idx| ==> idx[n] < |spans| && SpanRef(spans[idx[n]]) == k)
    && (forall i :: 0 <= i < |spans| && SpanRef(spans[i]) == k ==> i in idx)
  }

  function Windows(spans: seq<Span>, idx: seq<nat>): (r: seq<Window>)
    requires forall n :: 0 <= n < |idx| ==> idx[n] < |spans|
    ensures |r| == |idx|
  {
    seq(|idx|, n requires 0 <= n < |idx| => Window(spans[idx[n]].start, spans[idx[n]].end))
  }

  /** Only the spans of k change, each to the call it now has if it is not stale. */
  ghost predicate JoinedHere(ix: Index, to: Index, before: seq<Span>, after: seq<Span>, k: Ref) {
    && |after| == |before|
    && (forall i :: 0 <= i < |before| ==>
                      after[i] == if SpanRef(before[i]) != k then before[i]
                                  else before[i].(call := if Fresh(EndedAt(ix, k), before[i].start) then Find(to, k)
                                                          else None))
  }

  /** One reference is joined after others, rooms before jobs. */
  ghost predicate Step(ix: Index, before: seq<Span>, after: seq<Span>, done: seq<Ref>, k: Ref, idx: seq<nat>) {
    && k != NO_REF && k !in done && idx != []
    && IndicesOf(before, k, idx)
    && (k.room != "" ==> forall d :: d in done ==> d.room != "")
    && JoinedHere(ix, Joined(ix, k, Windows(before, idx)), before, after, k)
  }

  lemma FreshOfRef(ix: Index, spans: seq<Span>, k: Ref, idx: seq<nat>)
    requires IndicesOf(spans, k, idx)
    ensures var ended, items := EndedAt(ix, k), Windows(spans, idx);
            && (AnyFresh(ended, items) <==>
                exists i :: 0 <= i < |spans| && SpanRef(spans[i]) == k && Fresh(ended, spans[i].start))
  {
    var ended, items := EndedAt(ix, k), Windows(spans, idx);
    forall i | 0 <= i < |spans| && SpanRef(spans[i]) == k && Fresh(ended, spans[i].start)
      ensures AnyFresh(ended, items)
    {
      var n :| 0 <= n < |idx| && idx[n] == i;
      assert items[n].start == spans[i].start;
    }
    if AnyFresh(ended, items) {
      var n :| 0 <= n < |items| && Fresh(ended, items[n].start);
      assert SpanRef(spans[idx[n]]) == k && Fresh(ended, spans[idx[n]].start);
    }
  }

  lemma StepFinds(ix: Index, before: seq<Span>, after: seq<Span>, done: seq<Ref>, k: Ref, idx: seq<nat>)
    requires Step(ix, before, after, done, k, idx)
    ensures var to := Joined(ix, k, Windows(before, idx));
            Find(to, k).Some? && EndedAt(to, k) == EndedAt(ix, k)
  {
    var items := Windows(before, idx);
    if AnyFresh(EndedAt(ix, k), items) {
      JoinedIsFound(ix, k, items);
    } else {
      assert !Fresh(EndedAt(ix, k), items[0].start);
    }
  }

  lemma StepAssigns(ix: Index, before: seq<Span>, after: seq<Span>, done: seq<Ref>, k: Ref, idx: seq<nat>)
    requires Step(ix, before, after, done, k, idx) && Assigned(ix, before, done)
    ensures Assigned(Joined(ix, k, Windows(before, idx)), after, done + [k])
  {
    var items := Windows(before, idx);
    var to := Joined(ix, k, items);
    StepFinds(ix, before, after, done, k, idx);
    JoinedGrows(ix, k, items);
    forall d | d in done ensures Find(to, d) == Find(ix, d) && EndedAt(to, d) == EndedAt(ix, d) {
      OthersKeepTheirCall(ix, k, items, d);
    }
    forall i | 0 <= i < |after|
      ensures after[i].call == if SpanRef(after[i]) in done + [k] then CallOf(to, after[i]) else None
    {
      assert SpanRef(after[i]) == SpanRef(before[i]);
    }
  }

  function TimesOfRef(spans: seq<Span>, k: Ref, ended: Option<int>, ends: bool): set<int> {
    set i | 0 <= i < |spans| && SpanRef(spans[i]) == k && Fresh(ended, spans[i].start)
            && SpanTime(spans[i], ends).Some? :: SpanTime(spans[i], ends).value
  }

  lemma TimesOfItems(spans: seq<Span>, k: Ref, idx: seq<nat>, ended: Option<int>, ends: bool)
    requires IndicesOf(spans, k, idx)
    ensures Times(ended, Windows(spans, idx), ends) == TimesOfRef(spans, k, ended, ends)
  {
    var items := Windows(spans, idx);
    forall x | x in TimesOfRef(spans, k, ended, ends) ensures x in Times(ended, items, ends) {
      var i :| 0 <= i < |spans| && SpanRef(spans[i]) == k && Fresh(ended, spans[i].start)
               && SpanTime(spans[i], ends) == Some(x);
      var n :| 0 <= n < |idx| && idx[n] == i;
      assert items[n] == Window(spans[i].start, spans[i].end);
    }
    forall x | x in Times(ended, items, ends) ensures x in TimesOfRef(spans, k, ended, ends) {
      var n :| 0 <= n < |items| && Fresh(ended, items[n].start) && TimeOf(items[n], ends) == Some(x);
      assert SpanRef(spans[idx[n]]) == k;
    }
  }

  /** The times that spans of k bring the call they now have. */
  function TimesBrought(ix: Index, to: Index, spans: seq<Span>, k: Ref, c: nat, ends: bool): set<int> {
    if Find(to, k) == Some(c) then TimesOfRef(spans, k, EndedAt(ix, k), ends) else {}
  }

  lemma StepKeepsTimes(ix: Index, to: Index, before: seq<Span>, after: seq<Span>, k: Ref, c: nat, ends: bool)
    requires JoinedHere(ix, to, before, after, k)
    requires forall i :: 0 <= i < |before| && SpanRef(before[i]) == k ==> before[i].call.None?
    ensures TimesOf(before, c, ends) + TimesBrought(ix, to, before, k, c, ends) <= TimesOf(after, c, ends)
  {
    forall x | x in TimesOf(before, c, ends) ensures x in TimesOf(after, c, ends) {
      var i :| 0 <= i < |before| && before[i].call == Some(c) && SpanTime(before[i], ends) == Some(x);
      assert after[i] == before[i];
    }
    forall x | x in TimesBrought(ix, to, before, k, c, ends) ensures x in TimesOf(after, c, ends) {
      var i :| 0 <= i < |before| && SpanRef(before[i]) == k && Fresh(EndedAt(ix, k), before[i].start)
               && SpanTime(before[i], ends) == Some(x);
      assert after[i].call == Some(c) && SpanTime(after[i], ends) == Some(x);
    }
  }

  lemma StepAddsTimes(ix: Index, to: Index, before: seq<Span>, after: seq<Span>, k: Ref, c: nat, ends: bool)
    requires JoinedHere(ix, to, before, after, k)
    ensures TimesOf(after, c, ends) <= TimesOf(before, c, ends) + TimesBrought(ix, to, before, k, c, ends)
  {
    forall x | x in TimesOf(after, c, ends)
      ensures x in TimesOf(before, c, ends) + TimesBrought(ix, to, before, k, c, ends)
    {
      var i :| 0 <= i < |after| && after[i].call == Some(c) && SpanTime(after[i], ends) == Some(x);
      assert SpanTime(before[i], ends) == Some(x);
      if SpanRef(before[i]) != k {
        assert before[i].call == Some(c);
      }
    }
  }

  /** The spans of k bring their call exactly the times of those that are not stale. */
  lemma StepBringsTimes(ix: Index, before: seq<Span>, after: seq<Span>, done: seq<Ref>, k: Ref, idx: seq<nat>, c: nat,
                        ends: bool)
    requires Step(ix, before, after, done, k, idx) && Assigned(ix, before, done)
    ensures var items := Windows(before, idx);
            TimesOf(after, c, ends)
            == TimesOf(before, c, ends)
               + if Find(Joined(ix, k, items), k) == Some(c) then Times(EndedAt(ix, k), items, ends) else {}
  {
    var to := Joined(ix, k, Windows(before, idx));
    TimesOfItems(before, k, idx, EndedAt(ix, k), ends);
    StepKeepsTimes(ix, to, before, after, k, c, ends);
    StepAddsTimes(ix, to, before, after, k, c, ends);
  }

  lemma NoSpanBeyond(ix: Index, spans: seq<Span>, done: seq<Ref>)
    requires Assigned(ix, spans, done)
    ensures TimesOf(spans, |ix|, true) == {} && TimesOf(spans, |ix|, false) == {}
  {
    forall i | 0 <= i < |spans| ensures spans[i].call != Some(|ix|) {
    }
  }

  lemma StaleBringNothing(ended: Option<int>, items: seq<Window>)
    requires !AnyFresh(ended, items)
    ensures Times(ended, items, true) == {} && Times(ended, items, false) == {}
  {
  }

  lemma StepTimesCall(from: Index, ix: Index, before: seq<Span>, done: seq<Ref>, k: Ref, items: seq<Window>, c: nat)
    requires Grown(from, ix) && Assigned(ix, before, done) && Timed(from, ix, before)
    requires AnyFresh(EndedAt(ix, k), items)
    requires Find(ix, k) == Some(c) || (Find(ix, k).None? && c == |ix|)
    ensures var to, ended := Joined(ix, k, items), EndedAt(ix, k);
            && IsLatest(Before(from, c).activity, TimesOf(before, c, true) + Times(ended, items, true), to[c].activity)
            && IsEarliest(Before(from, c).firstSeen, TimesOf(before, c, false) + Times(ended, items, false),
                          to[c].firstSeen)
  {
    var ended := EndedAt(ix, k);
    LatestEndIsLatest(ended, items);
    EarliestStartIsEarliest(ended, items);
    if c < |ix| {
      LatestOfBoth(Before(from, c).activity, TimesOf(before, c, true), ix[c].activity,
                   Times(ended, items, true), LatestEnd(ended, items));
      EarliestOfBoth(Before(from, c).firstSeen, TimesOf(before, c, false), ix[c].firstSeen,
                     Times(ended, items, false), EarliestStart(ended, items));
    } else {
      NoSpanBeyond(ix, before, done);
      assert {} + Times(ended, items, true) == Times(ended, items, true);
      assert {} + Times(ended, items, false) == Times(ended, items, false);
    }
  }

  lemma StepActivity(from: Index, ix: Index, before: seq<Span>, after: seq<Span>, done: seq<Ref>, k: Ref,
                 idx: seq<nat>, c: nat)
    requires Step(ix, before, after, done, k, idx) && Grown(from, ix) && Assigned(ix, before, done)
    requires Timed(from, ix, before) && c < |Joined(ix, k, Windows(before, idx))|
    ensures IsLatest(Before(from, c).activity, TimesOf(after, c, true), Joined(ix, k, Windows(before, idx))[c].activity)
  {
    var items, ended := Windows(before, idx), EndedAt(ix, k);
    StepBringsTimes(ix, before, after, done, k, idx, c, true);
    if !AnyFresh(ended, items) {
      StaleBringNothing(ended, items);
    } else {
      JoinedIsFound(ix, k, items);
      if Find(Joined(ix, k, items), k) == Some(c) {
        StepTimesCall(from, ix, before, done, k, items, c);
      }
    }
  }

  lemma StepSighting(from: Index, ix: Index, before: seq<Span>, after: seq<Span>, done: seq<Ref>, k: Ref,
                 idx: seq<nat>, c: nat)
    requires Step(ix, before, after, done, k, idx) && Grown(from, ix) && Assigned(ix, before, done)
    requires Timed(from, ix, before) && c < |Joined(ix, k, Windows(before, idx))|
    ensures IsEarliest(Before(from, c).firstSeen, TimesOf(after, c, false),
                       Joined(ix, k, Windows(before, idx))[c].firstSeen)
  {
    var items, ended := Windows(before, idx), EndedAt(ix, k);
    StepBringsTimes(ix, before, after, done, k, idx, c, false);
    if !AnyFresh(ended, items) {
      StaleBringNothing(ended, items);
    } else {
      JoinedIsFound(ix, k, items);
      if Find(Joined(ix, k, items), k) == Some(c) {
        StepTimesCall(from, ix, before, done, k, items, c);
      }
    }
  }

  lemma StepTimes(from: Index, ix: Index, before: seq<Span>, after: seq<Span>, done: seq<Ref>, k: Ref, idx: seq<nat>)
    requires Step(ix, before, after, done, k, idx) && Grown(from, ix) && Assigned(ix, before, done)
    requires Timed(from, ix, before)
    ensures var to := Joined(ix, k, Windows(before, idx)); Grown(from, to) && Timed(from, to, after)
  {
    var to := Joined(ix, k, Windows(before, idx));
    JoinedGrows(ix, k, Windows(before, idx));
    forall c | 0 <= c < |to|
      ensures IsLatest(Before(from, c).activity, TimesOf(after, c, true), to[c].activity)
      ensures IsEarliest(Before(from, c).firstSeen, TimesOf(after, c, false), to[c].firstSeen)
    {
      StepActivity(from, ix, before, after, done, k, idx, c);
      StepSighting(from, ix, before, after, done, k, idx, c);
    }
  }

  lemma {:induction false} SameJobBrought(from: Index, done: seq<Ref>, a: seq<Span>, b: seq<Span>, room: string)
    requires |a| == |b|
    requires forall i :: 0 <= i < |a| ==> SpanRef(b[i]) == SpanRef(a[i]) && b[i].start == a[i].start
    ensures JobBrought(from, done, b, room) == JobBrought(from, done, a, room)
  {
    if done != [] {
      var d := done[|done| - 1];
      SameJobBrought(from, done[..|done| - 1], a, b, room);
      assert SomeFresh(from, a, d) <==> SomeFresh(from, b, d) by {
        assert forall i :: 0 <= i < |a| && SpanRef(a[i]) == d ==> SpanRef(b[i]) == d;
        assert forall i :: 0 <= i < |b| && SpanRef(b[i]) == d ==> SpanRef(a[i]) == d;
      }
    }
  }

  lemma {:induction false} BroughtByOneOf(from: Index, done: seq<Ref>, spans: seq<Span>, room: string)
    requires JobBrought(from, done, spans, room) != ""
    ensures Ref(room, JobBrought(from, done, spans, room)) in done
    ensures SomeFresh(from, spans, Ref(room, JobBrought(from, done, spans, room)))
  {
    var rest := done[..|done| - 1];
    if JobBrought(from, rest, spans, room) != "" {
      BroughtByOneOf(from, rest, spans, room);
    }
  }

  lemma {:induction false} NoneBrought(from: Index, done: seq<Ref>, spans: seq<Span>, k: Ref)
    requires k in done && JobBrought(from, done, spans, k.room) == "" && SomeFresh(from, spans, k)
    ensures k.job == ""
  {
    var rest := done[..|done| - 1];
    if k in rest {
      NoneBrought(from, rest, spans, k);
    } else {
      assert k == done[|done| - 1];
    }
  }

  /** A room's end is that of its call before the export, or none. */
  lemma RoomEnd(from: Index, ix: Index, k: Ref)
    requires Grown(from, ix) && k.room != ""
    ensures EndedAt(ix, k) == EndedAt(from, k)
  {
    if ByRoom(from, k.room).Some? {
      SameRoomCall(from, ix, k.room);
    }
  }

  /** What a step brings a room: its own job, if the room has none yet and some span of it is not stale. */
  lemma StepBringsJob(from: Index, ix: Index, before: seq<Span>, after: seq<Span>, done: seq<Ref>, k: Ref,
                      idx: seq<nat>, room: string)
    requires Step(ix, before, after, done, k, idx) && Grown(from, ix) && room != ""
    ensures JobBrought(from, done + [k], after, room)
            == if JobBrought(from, done, before, room) == "" && k.room == room
                  && AnyFresh(EndedAt(ix, k), Windows(before, idx)) then k.job
               else JobBrought(from, done, before, room)
  {
    assert forall i :: 0 <= i < |before| ==>
                         SpanRef(after[i]) == SpanRef(before[i]) && after[i].start == before[i].start;
    SameJobBrought(from, done + [k], before, after, room);
    assert (done + [k])[..|done|] == done;
    if k.room == room {
      RoomEnd(from, ix, k);
      FreshOfRef(ix, before, k, idx);
    }
  }

  lemma RoomAmong(ix: Index, room: string, c: nat)
    requires OneCallPerRoom(ix) && c < |ix| && ix[c].room == room != ""
    ensures ByRoom(ix, room) == Some(c)
  {
  }

  /** A room the reference does not name, or whose spans are all stale, keeps its call's job. */
  lemma StepHiresOther(from: Index, ix: Index, before: seq<Span>, after: seq<Span>, done: seq<Ref>, k: Ref,
                       idx: seq<nat>, c: nat)
    requires Step(ix, before, after, done, k, idx) && Settled(from, ix, before, done)
    requires c < |ix| && ix[c].room != ""
    requires ix[c].room != k.room || !AnyFresh(EndedAt(ix, k), Windows(before, idx))
    ensures HiredAt(from, Joined(ix, k, Windows(before, idx)), after, done + [k], c)
  {
    assert HiredAt(from, ix, before, done, c);
    StepBringsJob(from, ix, before, after, done, k, idx, ix[c].room);
  }

  lemma StepHiresFound(from: Index, ix: Index, before: seq<Span>, after: seq<Span>, done: seq<Ref>, k: Ref,
                       idx: seq<nat>, c: nat)
    requires Step(ix, before, after, done, k, idx) && Settled(from, ix, before, done)
    requires c < |ix| && ix[c].room == k.room != "" && AnyFresh(EndedAt(ix, k), Windows(before, idx))
    ensures HiredAt(from, Joined(ix, k, Windows(before, idx)), after, done + [k], c)
  {
    StepBringsJob(from, ix, before, after, done, k, idx, k.room);
    RoomAmong(ix, k.room, c);
    assert HiredAt(from, ix, before, done, c);
  }

  lemma StepHiresNew(from: Index, ix: Index, before: seq<Span>, after: seq<Span>, done: seq<Ref>, k: Ref,
                     idx: seq<nat>)
    requires Step(ix, before, after, done, k, idx) && Settled(from, ix, before, done)
    requires k.room != "" && AnyFresh(EndedAt(ix, k), Windows(before, idx)) && Find(ix, k).None?
    ensures HiredAt(from, Joined(ix, k, Windows(before, idx)), after, done + [k], |ix|)
  {
    StepBringsJob(from, ix, before, after, done, k, idx, k.room);
    if JobBrought(from, done, before, k.room) != "" {
      BroughtByOneOf(from, done, before, k.room);
      assert false;
    }
  }

  lemma JoinedRooms(ix: Index, k: Ref, items: seq<Window>, c: nat)
    requires c < |Joined(ix, k, items)|
    ensures c < |ix| ==> Joined(ix, k, items)[c].room == ix[c].room
    ensures c >= |ix| ==>
              && c == |ix| && AnyFresh(EndedAt(ix, k), items) && Find(ix, k).None?
              && Joined(ix, k, items)[c].room == k.room
  {
  }

  lemma StepHiresRoom(from: Index, ix: Index, before: seq<Span>, after: seq<Span>, done: seq<Ref>, k: Ref,
                      idx: seq<nat>, c: nat)
    requires Step(ix, before, after, done, k, idx) && Settled(from, ix, before, done)
    requires c < |Joined(ix, k, Windows(before, idx))| && Joined(ix, k, Windows(before, idx))[c].room != ""
    ensures HiredAt(from, Joined(ix, k, Windows(before, idx)), after, done + [k], c)
  {
    JoinedRooms(ix, k, Windows(before, idx), c);
    if c == |ix| {
      StepHiresNew(from, ix, before, after, done, k, idx);
    } else if ix[c].room == k.room && AnyFresh(EndedAt(ix, k), Windows(before, idx)) {
      StepHiresFound(from, ix, before, after, done, k, idx, c);
    } else {
      StepHiresOther(from, ix, before, after, done, k, idx, c);
    }
  }

  lemma StepHires(from: Index, ix: Index, before: seq<Span>, after: seq<Span>, done: seq<Ref>, k: Ref, idx: seq<nat>)
    requires Step(ix, before, after, done, k, idx) && Settled(from, ix, before, done)
    ensures var to := Joined(ix, k, Windows(before, idx)); Grown(from, to) && Hired(from, to, after, done + [k])
  {
    var items := Windows(before, idx);
    var to := Joined(ix, k, items);
    JoinedGrows(ix, k, items);
    forall c | 0 <= c < |to| && to[c].room != "" ensures HiredAt(from, to, after, done + [k], c)
    {
      StepHiresRoom(from, ix, before, after, done, k, idx, c);
    }
    forall c | |from| <= c < |to| && to[c].room == ""
      ensures Ref("", to[c].job) in done + [k]
      ensures forall d :: 0 <= d < |to| && d != c ==> to[d].job != to[c].job
    {
      StepHiresJob(from, ix, before, after, done, k, idx, c);
    }
  }

  lemma StepHiresJob(from: Index, ix: Index, before: seq<Span>, after: seq<Span>, done: seq<Ref>, k: Ref,
                     idx: seq<nat>, c: nat)
    requires Step(ix, before, after, done, k, idx) && Settled(from, ix, before, done)
    requires |from| <= c < |Joined(ix, k, Windows(before, idx))| && Joined(ix, k, Windows(before, idx))[c].room == ""
    ensures var to := Joined(ix, k, Windows(before, idx));
            && Ref("", to[c].job) in done + [k]
            && forall d :: 0 <= d < |to| && d != c ==> to[d].job != to[c].job
  {
    var to := Joined(ix, k, Windows(before, idx));
    if c < |ix| {
      assert Ref("", ix[c].job) in done;
      assert k.room == "";
    } else {
      assert k.room == "" && Find(ix, k).None?;
    }
  }

  /** Joining one more reference keeps the export settled. */
  lemma StepSettles(from: Index, ix: Index, before: seq<Span>, after: seq<Span>, done: seq<Ref>, k: Ref, idx: seq<nat>)
    requires Step(ix, before, after, done, k, idx) && Settled(from, ix, before, done)
    ensures Settled(from, Joined(ix, k, Windows(before, idx)), after, done + [k])
  {
    JoinedGrows(ix, k, Windows(before, idx));
    StepAssigns(ix, before, after, done, k, idx);
    StepTimes(from, ix, before, after, done, k, idx);
    StepHires(from, ix, before, after, done, k, idx);
  }

  // ----- a job and its room -----

  /** The job of a room's call, or none. */
  function JobOf(ix: Index, room: string): string {
    var c := ByRoom(ix, room);
    if c.None? then "" else ix[c.value].job
  }

  ghost predicate OpenedWithoutRoom(from: Index, ix: Index, job: string) {
    exists c :: |from| <= c < |ix| && ix[c].room == "" && ix[c].job == job
  }

  /** The room's call had no job and takes this one from the export. */
  ghost predicate TakesJob(from: Index, done: seq<Ref>, spans: seq<Span>, room: string, job: string) {
    JobOf(from, room) == "" && JobBrought(from, done, spans, room) == job
  }

  lemma JobBefore(from: Index, ix: Index, c: nat)
    requires Grown(from, ix) && OneCallPerRoom(from) && OneCallPerRoom(ix) && c < |ix| && ix[c].room != ""
    ensures JobOf(from, ix[c].room) == Before(from, c).job
  {
    if c < |from| {
      RoomAmong(from, ix[c].room, c);
    } else {
      assert forall d :: 0 <= d < |from| ==> from[d].room != ix[c].room;
      assert ByRoom(from, ix[c].room).None?;
    }
  }

  lemma TakenOpensNone(from: Index, ix: Index, spans: seq<Span>, done: seq<Ref>, job: string, k: Ref)
    requires Settled(from, ix, spans, done) && job != ""
    requires k in done && k.room != "" && TakesJob(from, done, spans, k.room, job)
    ensures !OpenedWithoutRoom(from, ix, job)
  {
    var r := ByRoom(ix, k.room).value;
    JobBefore(from, ix, r);
    assert HiredAt(from, ix, spans, done, r);
    forall c | |from| <= c < |ix| && ix[c].room == "" ensures ix[c].job != job {
      assert r != c;
    }
  }

  lemma UntakenOpens(from: Index, ix: Index, spans: seq<Span>, done: seq<Ref>, job: string)
    requires Settled(from, ix, spans, done) && job != "" && Ref("", job) in done
    requires forall c :: 0 <= c < |from| ==> from[c].job != job
    requires forall k :: k in done && k.room != "" ==> !TakesJob(from, done, spans, k.room, job)
    ensures OpenedWithoutRoom(from, ix, job)
  {
    var c := ByJob(ix, job).value;
    assert Find(ix, Ref("", job)) == Some(c);
    if ix[c].room != "" {
      JobBefore(from, ix, c);
      assert HiredAt(from, ix, spans, done, c);
      BroughtByOneOf(from, done, spans, ix[c].room);
      assert false;
    }
  }

  lemma SettledSecondCallIff(from: Index, ix: Index, spans: seq<Span>, done: seq<Ref>, job: string)
    requires Settled(from, ix, spans, done) && job != "" && Ref("", job) in done
    ensures OpenedWithoutRoom(from, ix, job)
            <==> (forall c :: 0 <= c < |from| ==> from[c].job != job)
                 && (forall k :: k in done && k.room != "" ==> !TakesJob(from, done, spans, k.room, job))
  {
    forall c | 0 <= c < |from| && from[c].job == job ensures ix[c].job == job {
      if ix[c].room != "" {
        assert HiredAt(from, ix, spans, done, c);
      }
    }
    if k :| k in done && k.room != "" && TakesJob(from, done, spans, k.room, job) {
      TakenOpensNone(from, ix, spans, done, job, k);
    } else if forall c :: 0 <= c < |from| ==> from[c].job != job {
      UntakenOpens(from, ix, spans, done, job);
    }
  }
}
