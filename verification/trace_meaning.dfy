/** What joining an export means for its spans, said of their own ids (internal/join/spans.go). */
module TraceMeaning {
  import opened Common
  import opened TraceIndex
  import opened TraceJoin
  import opened TraceRefs

  /** The call is one the span's own ids name: by room_id, or failing that by job_id, lk.room_sid or lk.job_id. */
  predicate NamedBy(c: Call, sp: Span) {
    && (sp.roomId != "" ==> c.room == sp.roomId)
    && (sp.roomId == "" && sp.jobId != "" ==> c.job == sp.jobId)
    && (sp.roomId == "" && sp.jobId == "" && sp.lkRoomSid != "" ==> c.room == sp.lkRoomSid)
    && (sp.roomId == "" && sp.jobId == "" && sp.lkRoomSid == "" ==> sp.lkJobId != "" && c.job == sp.lkJobId)
  }

  /** The span begins over 60 s past the call's end. */
  predicate Late(c: Call, sp: Span) {
    c.ended.Some? && sp.start.Some? && sp.start.value > c.ended.value + 60_000_000_000
  }

  /** A span without ids joins nothing; any other joins a call its ids name, unless that call ended too long before
      it. */
  ghost predicate JoinsItsOwn(ix: Index, sp: Span) {
    && (sp.call.Some? ==> sp.call.value < |ix| && NamedBy(ix[sp.call.value], sp) && !Late(ix[sp.call.value], sp))
    && (sp.call.None? ==>
          || (sp.roomId == "" && sp.jobId == "" && sp.lkRoomSid == "" && sp.lkJobId == "")
          || exists c :: 0 <= c < |ix| && NamedBy(ix[c], sp) && Late(ix[c], sp))
  }

  ghost predicate AllJoinTheirOwn(ix: Index, spans: seq<Span>) {
    forall sp :: sp in spans ==> JoinsItsOwn(ix, sp)
  }

  lemma SettledJoinsItsOwn(from: Index, ix: Index, spans: seq<Span>, i: nat)
    requires Settled(from, ix, spans, RefsOf(spans)) && i < |spans|
    ensures JoinsItsOwn(ix, spans[i])
  {
    RefsAreRoomsThenJobs(spans);
    var sp := spans[i];
    var k := SpanRef(sp);
    assert k != NO_REF ==> k in FirstSeen(spans);
    if k != NO_REF {
      var c := Find(ix, k).value;
      assert NamedBy(ix[c], sp);
      assert sp.call == CallOf(ix, sp);
      assert Fresh(ix[c].ended, sp.start) <==> !Late(ix[c], sp);
    }
  }

  lemma SettledJoinTheirOwn(from: Index, ix: Index, spans: seq<Span>)
    requires Settled(from, ix, spans, RefsOf(spans))
    ensures AllJoinTheirOwn(ix, spans)
  {
    forall i | 0 <= i < |spans| ensures JoinsItsOwn(ix, spans[i]) {
      SettledJoinsItsOwn(from, ix, spans, i);
    }
  }

  // ----- the job that comes with a room -----

  /** The span names the room: by room_id, or by lk.room_sid if it has no plain id. */
  predicate NamesRoom(sp: Span, room: string) {
    sp.roomId == room || (sp.roomId == "" && sp.jobId == "" && sp.lkRoomSid == room)
  }

  /** The job it brings along: with room_id its job_id or else its lk.job_id, with lk.room_sid its lk.job_id. */
  predicate Brings(sp: Span, job: string) {
    if sp.roomId != "" && sp.jobId != "" then sp.jobId == job else sp.lkJobId == job
  }

  /** A room's call keeps the job it had. One without takes a job that a span naming the room brings, if one that
      is not late brings any. */
  ghost predicate JobRidesAlong(before: Call, c: Call, spans: seq<Span>) {
    && (before.job != "" ==> c.job == before.job)
    && (before.job == "" && c.job != "" ==>
          exists sp :: sp in spans && NamesRoom(sp, c.room) && Brings(sp, c.job) && !Late(c, sp))
    && (c.job == "" ==> forall sp :: sp in spans && NamesRoom(sp, c.room) && !Late(c, sp) ==> Brings(sp, ""))
  }

  ghost predicate JobsRideAlong(from: Index, ix: Index, spans: seq<Span>) {
    forall c :: 0 <= c < |ix| && ix[c].room != "" ==> JobRidesAlong(Before(from, c), ix[c], spans)
  }

  /** A span without a room is referred to by its job alone: job_id, or lk.job_id if it has no plain id. */
  lemma JobSpanRef(sp: Span)
    requires SpanRef(sp).room == ""
    ensures sp.roomId == "" && (sp.jobId != "" || sp.lkRoomSid == "")
    ensures SpanRef(sp).job == if sp.jobId != "" then sp.jobId else sp.lkJobId
  {
  }

  /** A span is referred to by a room exactly when it names it, with exactly the job it brings. */
  lemma SpanBrings(sp: Span, room: string)
    requires room != ""
    ensures NamesRoom(sp, room) <==> SpanRef(sp).room == room
    ensures NamesRoom(sp, room) ==> forall job :: Brings(sp, job) <==> SpanRef(sp).job == job
  {
  }

  lemma RoomCallEnds(from: Index, ix: Index, spans: seq<Span>, c: nat, k: Ref)
    requires Settled(from, ix, spans, RefsOf(spans)) && c < |ix| && ix[c].room == k.room != ""
    ensures EndedAt(from, k) == ix[c].ended
  {
    RoomAmong(ix, k.room, c);
    RoomEnd(from, ix, k);
  }

  lemma SettledJobRidesAlong(from: Index, ix: Index, spans: seq<Span>, c: nat)
    requires Settled(from, ix, spans, RefsOf(spans)) && c < |ix| && ix[c].room != ""
    ensures JobRidesAlong(Before(from, c), ix[c], spans)
  {
    var order, room := RefsOf(spans), ix[c].room;
    var job := JobBrought(from, order, spans, room);
    assert HiredAt(from, ix, spans, order, c);
    if Before(from, c).job == "" && job != "" {
      BroughtByOneOf(from, order, spans, room);
      var k := Ref(room, job);
      RoomCallEnds(from, ix, spans, c, k);
      var i :| 0 <= i < |spans| && SpanRef(spans[i]) == k && Fresh(EndedAt(from, k), spans[i].start);
      SpanBrings(spans[i], room);
      assert spans[i] in spans && !Late(ix[c], spans[i]);
    }
    if ix[c].job == "" {
      forall sp | sp in spans && NamesRoom(sp, room) && !Late(ix[c], sp) ensures Brings(sp, "") {
        SpanBrings(sp, room);
        NoJobBrought(from, ix, spans, c, sp);
      }
    }
  }

  lemma NoJobBrought(from: Index, ix: Index, spans: seq<Span>, c: nat, sp: Span)
    requires Settled(from, ix, spans, RefsOf(spans)) && c < |ix| && ix[c].room != ""
    requires JobBrought(from, RefsOf(spans), spans, ix[c].room) == ""
    requires sp in spans && SpanRef(sp).room == ix[c].room && !Late(ix[c], sp)
    ensures SpanRef(sp).job == ""
  {
    var k := SpanRef(sp);
    var i :| 0 <= i < |spans| && spans[i] == sp;
    RoomCallEnds(from, ix, spans, c, k);
    RefsAreRoomsThenJobs(spans);
    assert k in FirstSeen(spans) && k in RefsOf(spans);
    assert SomeFresh(from, spans, k);
    NoneBrought(from, RefsOf(spans), spans, k);
  }

  lemma SettledJobsRideAlong(from: Index, ix: Index, spans: seq<Span>)
    requires Settled(from, ix, spans, RefsOf(spans))
    ensures JobsRideAlong(from, ix, spans)
  {
    forall c | 0 <= c < |ix| && ix[c].room != "" ensures JobRidesAlong(Before(from, c), ix[c], spans) {
      SettledJobRidesAlong(from, ix, spans, c);
    }
  }

  // ----- the times of a call -----

  /** A call's last activity and first sighting take in the times it had and those its spans report, and nothing
      else. */
  ghost predicate TimesAreItsSpans(before: Call, c: Call, n: nat, spans: seq<Span>) {
    && (before.activity.Some? ==> c.activity.Some? && c.activity.value >= before.activity.value)
    && (before.firstSeen.Some? ==> c.firstSeen.Some? && c.firstSeen.value <= before.firstSeen.value)
    && (forall sp :: sp in spans && sp.call == Some(n) && sp.end.Some? ==>
                       c.activity.Some? && c.activity.value >= sp.end.value)
    && (forall sp :: sp in spans && sp.call == Some(n) && sp.start.Some? ==>
                       c.firstSeen.Some? && c.firstSeen.value <= sp.start.value)
    && (c.activity != before.activity ==> exists sp :: sp in spans && sp.call == Some(n) && sp.end == c.activity)
    && (c.firstSeen != before.firstSeen ==> exists sp :: sp in spans && sp.call == Some(n) && sp.start == c.firstSeen)
  }

  ghost predicate AllTimesAreTheirs(from: Index, ix: Index, spans: seq<Span>) {
    forall n :: 0 <= n < |ix| ==> TimesAreItsSpans(Before(from, n), ix[n], n, spans)
  }

  lemma SettledTimes(from: Index, ix: Index, spans: seq<Span>, n: nat)
    requires Settled(from, ix, spans, RefsOf(spans)) && n < |ix|
    ensures TimesAreItsSpans(Before(from, n), ix[n], n, spans)
  {
    var ends, starts := TimesOf(spans, n, true), TimesOf(spans, n, false);
    forall sp | sp in spans && sp.call == Some(n)
      ensures sp.end.Some? ==> sp.end.value in ends
      ensures sp.start.Some? ==> sp.start.value in starts
    {
      assert SpanTime(sp, true) == sp.end && SpanTime(sp, false) == sp.start;
    }
    if ix[n].activity != Before(from, n).activity {
      var i :| 0 <= i < |spans| && spans[i].call == Some(n) && SpanTime(spans[i], true) == ix[n].activity;
      assert spans[i] in spans;
    }
    if ix[n].firstSeen != Before(from, n).firstSeen {
      var i :| 0 <= i < |spans| && spans[i].call == Some(n) && SpanTime(spans[i], false) == ix[n].firstSeen;
      assert spans[i] in spans;
    }
  }

  lemma SettledTimesAreTheirs(from: Index, ix: Index, spans: seq<Span>)
    requires Settled(from, ix, spans, RefsOf(spans))
    ensures AllTimesAreTheirs(from, ix, spans)
  {
    forall n | 0 <= n < |ix| ensures TimesAreItsSpans(Before(from, n), ix[n], n, spans) {
      SettledTimes(from, ix, spans, n);
    }
  }
}
