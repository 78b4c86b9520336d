/** The references of a trace export in the order they are joined, and what joining them all, or again, comes to
    (internal/join/spans.go). */
module TraceRefs {
  import opened Common
  import opened TraceIndex
  import opened TraceJoin

  // ----- the references of an export -----

  /** The references of the spans, each once, as they first appear. */
  function FirstSeen(spans: seq<Span>): (r: seq<Ref>)
    ensures forall k :: k in r <==> k != NO_REF && exists i :: 0 <= i < |spans| && SpanRef(spans[i]) == k
    ensures Distinct(r)
  {
    if spans == [] then []
    else
      var last := spans[|spans| - 1];
      var before, k := FirstSeen(spans[..|spans| - 1]), SpanRef(last);
      assert spans == spans[..|spans| - 1] + [last];
      if k == NO_REF || k in before then before else before + [k]
  }

  predicate Distinct<T(==)>(s: seq<T>) {
    forall i, j :: 0 <= i < j < |s| ==> s[i] != s[j]
  }

  function WithRoom(refs: seq<Ref>, room: bool): (r: seq<Ref>)
    ensures forall k :: k in r <==> k in refs && (k.room != "") == room
  {
    if refs == [] then []
    else
      var before, k := WithRoom(refs[..|refs| - 1], room), refs[|refs| - 1];
      if (k.room != "") == room then before + [k] else before
  }

  lemma {:induction false} WithRoomIsDistinct(refs: seq<Ref>, room: bool)
    requires Distinct(refs)
    ensures Distinct(WithRoom(refs, room))
  {
    if refs != [] {
      WithRoomIsDistinct(refs[..|refs| - 1], room);
    }
  }

  /** The stable sort that puts room SIDs first. */
  function RoomsFirst(refs: seq<Ref>): seq<Ref> {
    WithRoom(refs, true) + WithRoom(refs, false)
  }

  /** The order in which an export's references are joined. */
  function RefsOf(spans: seq<Span>): seq<Ref> {
    RoomsFirst(FirstSeen(spans))
  }

  lemma RefsAreRoomsThenJobs(spans: seq<Span>)
    ensures var r := RefsOf(spans);
            && Distinct(r)
            && (forall i, j :: 0 <= i < j < |r| && r[j].room != "" ==> r[i].room != "")
            && (forall k :: k in r <==> k in FirstSeen(spans))
  {
    var refs := FirstSeen(spans);
    WithRoomIsDistinct(refs, true);
    WithRoomIsDistinct(refs, false);
    var r, n := RoomsFirst(refs), |WithRoom(refs, true)|;
    forall i | 0 <= i < |r| ensures r[i].room != "" <==> i < n {
      if i < n {
        assert r[i] == WithRoom(refs, true)[i] && r[i] in WithRoom(refs, true);
      } else {
        assert r[i] == WithRoom(refs, false)[i - n] && r[i] in WithRoom(refs, false);
      }
    }
  }

  /** The places of the spans of k, in order. */
  function PlacesOf(spans: seq<Span>, k: Ref): (r: seq<nat>)
    ensures forall n :: 0 <= n < |r| ==> r[n] < |spans|
  {
    if spans == [] then []
    else
      var before, n := PlacesOf(spans[..|spans| - 1], k), |spans| - 1;
      if SpanRef(spans[n]) == k then before + [n] else before
  }

  lemma {:induction false} PlacesAreIndices(spans: seq<Span>, k: Ref)
    ensures IndicesOf(spans, k, PlacesOf(spans, k))
  {
    if spans != [] {
      var before, n := spans[..|spans| - 1], |spans| - 1;
      PlacesAreIndices(before, k);
      forall i | 0 <= i < |spans| && SpanRef(spans[i]) == k ensures i in PlacesOf(spans, k) {
        if i < n {
          assert before[i] == spans[i];
        }
      }
    }
  }

  /** Each reference once, with spans of its own, rooms before jobs. */
  ghost predicate Ordered(spans: seq<Span>, order: seq<Ref>) {
    && Distinct(order)
    && (forall i, j :: 0 <= i < j < |order| && order[j].room != "" ==> order[i].room != "")
    && (forall k :: k in order ==> k != NO_REF && PlacesOf(spans, k) != [])
  }

  lemma RefsAreOrdered(spans: seq<Span>)
    ensures Ordered(spans, RefsOf(spans))
  {
    RefsAreRoomsThenJobs(spans);
    forall k | k in RefsOf(spans) ensures k != NO_REF && PlacesOf(spans, k) != [] {
      PlacesAreIndices(spans, k);
    }
  }

  /** The m-th reference is new, has spans, and is a room only if those before it are. */
  lemma NextUp(spans: seq<Span>, order: seq<Ref>, m: nat)
    requires Ordered(spans, order) && m < |order|
    ensures order[m] != NO_REF && order[m] !in order[..m] && PlacesOf(spans, order[m]) != []
    ensures order[..m + 1] == order[..m] + [order[m]]
    ensures order[m].room != "" ==> forall d :: d in order[..m] ==> d.room != ""
  {
    assert order[m] in order;
  }

  // ----- joining them all -----

  ghost predicate SameIds(a: seq<Span>, b: seq<Span>) {
    |a| == |b| && forall i :: 0 <= i < |a| ==> b[i] == a[i].(call := b[i].call)
  }

  lemma {:induction false} SameIdsSameRefs(a: seq<Span>, b: seq<Span>, k: Ref)
    requires SameIds(a, b)
    ensures PlacesOf(a, k) == PlacesOf(b, k)
    ensures FirstSeen(a) == FirstSeen(b)
  {
    if a != [] {
      SameIdsSameRefs(a[..|a| - 1], b[..|b| - 1], k);
    }
  }

  lemma SameIdsSameBrought(from: Index, done: seq<Ref>, a: seq<Span>, b: seq<Span>, room: string)
    requires SameIds(a, b)
    ensures JobBrought(from, done, b, room) == JobBrought(from, done, a, room)
  {
    forall i | 0 <= i < |a| ensures SpanRef(b[i]) == SpanRef(a[i]) && b[i].start == a[i].start {
    }
    SameJobBrought(from, done, a, b, room);
  }

  lemma NothingJoinedYet(ix: Index, spans: seq<Span>)
    requires OneCallPerRoom(ix)
    requires Unjoined(spans)
    ensures Settled(ix, ix, spans, [])
  {
    forall c | 0 <= c < |ix|
      ensures IsLatest(ix[c].activity, TimesOf(spans, c, true), ix[c].activity)
      ensures IsEarliest(ix[c].firstSeen, TimesOf(spans, c, false), ix[c].firstSeen)
    {
      assert TimesOf(spans, c, true) == {} && TimesOf(spans, c, false) == {};
    }
  }

  function ItemsOf(spans: seq<Span>, k: Ref): seq<Window> {
    Windows(spans, PlacesOf(spans, k))
  }

  /** The index once the first m of an export's references have joined, one after another. */
  function JoinFirst(ix: Index, spans: seq<Span>, order: seq<Ref>, m: nat): Index
    requires m <= |order|
  {
    if m == 0 then ix
    else Joined(JoinFirst(ix, spans, order, m - 1), order[m - 1], ItemsOf(spans, order[m - 1]))
  }

  function JoinAll(ix: Index, spans: seq<Span>): Index {
    JoinFirst(ix, spans, RefsOf(spans), |RefsOf(spans)|)
  }

  ghost predicate Unjoined(spans: seq<Span>) {
    forall i :: 0 <= i < |spans| ==> spans[i].call.None?
  }

  function NamedSpan(sp: Span, k: Ref, ended: Option<int>, call: Option<nat>): Span {
    if SpanRef(sp) != k then sp else sp.(call := if Fresh(ended, sp.start) then call else None)
  }

  /** Some naming of calls on the spans settles them with the index. */
  ghost predicate CanSettle(from: Index, given: seq<Span>, ix: Index, done: seq<Ref>) {
    exists after :: SameIds(given, after) && Settled(from, ix, after, done)
  }

  lemma NextSettles(from: Index, given: seq<Span>, order: seq<Ref>, ix: Index, m: nat)
    requires Ordered(given, order) && m < |order| && CanSettle(from, given, ix, order[..m])
    ensures CanSettle(from, given, Joined(ix, order[m], ItemsOf(given, order[m])), order[..m + 1])
  {
    var before :| SameIds(given, before) && Settled(from, ix, before, order[..m]);
    var k := order[m];
    var idx := PlacesOf(given, k);
    NextUp(given, order, m);
    SameIdsSameRefs(given, before, k);
    PlacesAreIndices(before, k);
    assert Windows(before, idx) == ItemsOf(given, k);
    var after := AfterNext(ix, given, before, k, Joined(ix, k, ItemsOf(given, k)));
    StepSettles(from, ix, before, after, order[..m], k, idx);
  }

  lemma AfterNext(ix: Index, given: seq<Span>, before: seq<Span>, k: Ref, to: Index) returns (after: seq<Span>)
    requires SameIds(given, before)
    requires forall i :: 0 <= i < |before| && SpanRef(before[i]) == k ==> before[i].call.None?
    ensures SameIds(given, after) && JoinedHere(ix, to, before, after, k)
  {
    var ended, call := EndedAt(ix, k), Find(to, k);
    after := seq(|before|, i requires 0 <= i < |before| => NamedSpan(before[i], k, ended, call));
  }

  lemma OneMoreSettles(from: Index, given: seq<Span>, order: seq<Ref>, m: nat)
    requires Ordered(given, order) && m < |order|
    requires CanSettle(from, given, JoinFirst(from, given, order, m), order[..m])
    ensures CanSettle(from, given, JoinFirst(from, given, order, m + 1), order[..m + 1])
  {
    NextSettles(from, given, order, JoinFirst(from, given, order, m), m);
  }

  /** Joining its references in their order settles an export, whatever was in the index. */
  lemma {:induction false} JoiningSettles(from: Index, given: seq<Span>, order: seq<Ref>, m: nat)
    requires OneCallPerRoom(from) && Unjoined(given) && Ordered(given, order) && m <= |order|
    ensures CanSettle(from, given, JoinFirst(from, given, order, m), order[..m])
  {
    if m == 0 {
      NothingJoinedYet(from, given);
      assert SameIds(given, given);
    } else {
      JoiningSettles(from, given, order, m - 1);
      OneMoreSettles(from, given, order, m - 1);
    }
  }

  // ----- joining them again -----

  /** Once a reference's spans carry its call, their times add nothing to the call. */
  lemma NoNewTimes(from: Index, ix: Index, spans: seq<Span>, done: seq<Ref>, k: Ref, c: nat)
    requires Settled(from, ix, spans, done) && k in done && Find(ix, k) == Some(c)
    ensures Latest(ix[c].activity, LatestEnd(EndedAt(ix, k), ItemsOf(spans, k))) == ix[c].activity
    ensures Earliest(ix[c].firstSeen, EarliestStart(EndedAt(ix, k), ItemsOf(spans, k))) == ix[c].firstSeen
  {
    var ended, idx := EndedAt(ix, k), PlacesOf(spans, k);
    PlacesAreIndices(spans, k);
    CarriedTimes(from, ix, spans, done, k, c, true);
    CarriedTimes(from, ix, spans, done, k, c, false);
    TimesOfItems(spans, k, idx, ended, true);
    TimesOfItems(spans, k, idx, ended, false);
    LatestEndIsLatest(ended, ItemsOf(spans, k));
    EarliestStartIsEarliest(ended, ItemsOf(spans, k));
  }

  lemma CarriedTimes(from: Index, ix: Index, spans: seq<Span>, done: seq<Ref>, k: Ref, c: nat, ends: bool)
    requires Settled(from, ix, spans, done) && k in done && Find(ix, k) == Some(c)
    ensures TimesOfRef(spans, k, EndedAt(ix, k), ends) <= TimesOf(spans, c, ends)
  {
    forall i | 0 <= i < |spans| && SpanRef(spans[i]) == k && Fresh(EndedAt(ix, k), spans[i].start)
      ensures spans[i].call == Some(c)
    {
      assert spans[i].call == CallOf(ix, spans[i]);
    }
  }

  /** Nor does its job: a room's call that still has none was brought none. */
  lemma NoNewJob(from: Index, ix: Index, spans: seq<Span>, done: seq<Ref>, k: Ref, c: nat)
    requires Settled(from, ix, spans, done) && k in done && Find(ix, k) == Some(c)
    requires k.room != "" && ix[c].job == "" && AnyFresh(EndedAt(ix, k), ItemsOf(spans, k))
    ensures k.job == ""
  {
    PlacesAreIndices(spans, k);
    FreshOfRef(ix, spans, k, PlacesOf(spans, k));
    RoomEnd(from, ix, k);
    assert HiredAt(from, ix, spans, done, c);
    NoneBrought(from, done, spans, k);
  }

  lemma JoinedAlready(from: Index, ix: Index, spans: seq<Span>, done: seq<Ref>, k: Ref)
    requires Settled(from, ix, spans, done) && k in done
    ensures Joined(ix, k, ItemsOf(spans, k)) == ix
  {
    var c := Find(ix, k).value;
    NoNewTimes(from, ix, spans, done, k, c);
    if k.room != "" && ix[c].job == "" && AnyFresh(EndedAt(ix, k), ItemsOf(spans, k)) {
      NoNewJob(from, ix, spans, done, k, c);
    }
  }

  lemma JoinedOnceMore(from: Index, given: seq<Span>, order: seq<Ref>, ix: Index, m: nat, i: nat)
    requires i < m <= |order| && CanSettle(from, given, ix, order[..m])
    ensures Joined(ix, order[i], ItemsOf(given, order[i])) == ix
  {
    var k := order[i];
    var after :| SameIds(given, after) && Settled(from, ix, after, order[..m]);
    SameIdsSameRefs(given, after, k);
    assert ItemsOf(after, k) == ItemsOf(given, k);
    assert order[..m][i] == k;
    JoinedAlready(from, ix, after, order[..m], k);
  }

  /** No more of these references changes the index. */
  ghost predicate NoneChanges(ix: Index, given: seq<Span>, order: seq<Ref>, m: nat)
    requires m <= |order|
  {
    forall i :: 0 <= i < m ==> Joined(ix, order[i], ItemsOf(given, order[i])) == ix
  }

  lemma {:induction false} FirstOfThemAgain(ix: Index, given: seq<Span>, order: seq<Ref>, m: nat, i: nat)
    requires i <= m <= |order| && NoneChanges(ix, given, order, m)
    ensures JoinFirst(ix, given, order, i) == ix
  {
    if i > 0 {
      FirstOfThemAgain(ix, given, order, m, i - 1);
    }
  }

  lemma {:induction false} RestOfThemAgain(from: Index, given: seq<Span>, order: seq<Ref>, ix: Index, m: nat, i: nat)
    requires m <= i <= |order| && ix == JoinFirst(from, given, order, m)
    requires JoinFirst(ix, given, order, m) == ix
    ensures JoinFirst(ix, given, order, i) == JoinFirst(from, given, order, i)
  {
    if i > m {
      RestOfThemAgain(from, given, order, ix, m, i - 1);
    }
  }

  /** An export joined again, wherever joining it stopped before, leaves the index as joining it once would. */
  lemma RejoiningKeepsTheIndex(from: Index, given: seq<Span>, m: nat)
    requires OneCallPerRoom(from) && Unjoined(given) && m <= |RefsOf(given)|
    ensures JoinAll(JoinFirst(from, given, RefsOf(given), m), given) == JoinAll(from, given)
  {
    var order := RefsOf(given);
    var ix := JoinFirst(from, given, order, m);
    RefsAreOrdered(given);
    JoiningSettles(from, given, order, m);
    forall i | 0 <= i < m ensures Joined(ix, order[i], ItemsOf(given, order[i])) == ix {
      JoinedOnceMore(from, given, order, ix, m, i);
    }
    FirstOfThemAgain(ix, given, order, m, m);
    RestOfThemAgain(from, given, order, ix, m, |order|);
  }

  // ----- a job whose spans do not find its room -----

  /** Whether joining an export opens a call for a job without its room. */
  ghost predicate OpensWithoutRoom(from: Index, spans: seq<Span>, job: string) {
    OpenedWithoutRoom(from, JoinAll(from, spans), job)
  }

  /** A job's spans without a room open a call of their own if and only if no call had the job before the
      export and no room's call takes it: a room's call takes a job if it had none and this is the job of the
      first of the room's references that names one and has a span that is not stale. */
  lemma SecondCallIff(from: Index, spans: seq<Span>, job: string)
    requires OneCallPerRoom(from) && Unjoined(spans) && job != "" && Ref("", job) in RefsOf(spans)
    ensures var order := RefsOf(spans);
            OpensWithoutRoom(from, spans, job)
            <==> (forall c :: 0 <= c < |from| ==> from[c].job != job)
                 && (forall k :: k in order && k.room != "" ==> !TakesJob(from, order, spans, k.room, job))
  {
    var order := RefsOf(spans);
    RefsAreOrdered(spans);
    JoiningSettles(from, spans, order, |order|);
    assert order[..|order|] == order;
    var after :| SameIds(spans, after) && Settled(from, JoinAll(from, spans), after, order);
    SettledSecondCallIff(from, JoinAll(from, spans), after, order, job);
    forall k | k in order ensures JobBrought(from, order, spans, k.room) == JobBrought(from, order, after, k.room) {
      SameIdsSameBrought(from, order, spans, after, k.room);
    }
  }

  function RoomSpan(room: string, job: string): Span {
    Span("", room, job, "", "", Some(STALE_AFTER + 1), None, None)
  }

  function JobSpan(job: string): Span {
    Span("", "", job, "", "", None, None, None)
  }

  lemma FirstSeenOfTwo(a: Span, b: Span)
    requires SpanRef(a) != NO_REF && SpanRef(b) != NO_REF && SpanRef(a) != SpanRef(b)
    ensures FirstSeen([a, b]) == [SpanRef(a), SpanRef(b)]
  {
    assert [a, b][..1] == [a] && [a][..0] == [];
    assert FirstSeen([a]) == [SpanRef(a)];
  }

  lemma RoomThenJob(j: Ref, k: Ref)
    requires j.room != "" && k.room == ""
    ensures RoomsFirst([j, k]) == [j, k]
  {
    assert [j, k][..1] == [j] && [j][..0] == [];
    assert WithRoom([j], true) == [j] && WithRoom([j], false) == [];
  }

  lemma RefsOfTwo(room: string, job: string)
    requires room != "" && job != ""
    ensures RefsOf([RoomSpan(room, job), JobSpan(job)]) == [Ref(room, job), Ref("", job)]
  {
    FirstSeenOfTwo(RoomSpan(room, job), JobSpan(job));
    RoomThenJob(Ref(room, job), Ref("", job));
  }

  lemma SecondCallOfTwo(from: Index, spans: seq<Span>, room: string, job: string)
    requires OneCallPerRoom(from) && room != "" && job != "" && spans == [RoomSpan(room, job), JobSpan(job)]
    requires forall c :: 0 <= c < |from| ==> from[c].job != job
    requires !TakesJob(from, [Ref(room, job), Ref("", job)], spans, room, job)
    ensures OpensWithoutRoom(from, spans, job)
  {
    RefsOfTwo(room, job);
    SecondCallIff(from, spans, job);
  }

  /** The two ways it goes wrong. First, a room whose call already belongs to another job. */
  lemma AnotherJobsRoomOpensASecondCall(from: Index, spans: seq<Span>, room: string, job: string, other: string)
    requires room != "" && job != "" && other !in {"", job}
    requires from == [Call(room, other, None, None, None, None)] && spans == [RoomSpan(room, job), JobSpan(job)]
    ensures OpensWithoutRoom(from, spans, job)
  {
    RoomAmong(from, room, 0);
    SecondCallOfTwo(from, spans, room, job);
  }

  lemma LateRoomSpan(from: Index, spans: seq<Span>, room: string, job: string)
    requires room != "" && EndedAt(from, Ref(room, job)) == Some(0) && spans == [RoomSpan(room, job), JobSpan(job)]
    ensures !SomeFresh(from, spans, Ref(room, job))
  {
    assert SpanRef(spans[1]).room == "";
  }

  lemma NoneFreshNoneBrought(from: Index, spans: seq<Span>, order: seq<Ref>, j: Ref, k: Ref)
    requires order == [j, k] && k.room != j.room && !SomeFresh(from, spans, j)
    ensures JobBrought(from, order, spans, j.room) == ""
  {
    assert order[..1] == [j] && [j][..0] == [];
    assert JobBrought(from, [j], spans, j.room) == "";
  }

  lemma LateRoomBringsNothing(from: Index, spans: seq<Span>, order: seq<Ref>, room: string, job: string)
    requires room != "" && EndedAt(from, Ref(room, job)) == Some(0) && spans == [RoomSpan(room, job), JobSpan(job)]
    requires order == [Ref(room, job), Ref("", job)]
    ensures JobBrought(from, order, spans, room) == ""
  {
    LateRoomSpan(from, spans, room, job);
    NoneFreshNoneBrought(from, spans, order, Ref(room, job), Ref("", job));
  }

  /** Second, a room whose call ended over a minute before every span that names both. */
  lemma StaleRoomSpansOpenASecondCall(from: Index, spans: seq<Span>, room: string, job: string)
    requires room != "" && job != ""
    requires from == [Call(room, "", None, Some(0), None, None)] && spans == [RoomSpan(room, job), JobSpan(job)]
    ensures OpensWithoutRoom(from, spans, job)
  {
    RoomAmong(from, room, 0);
    LateRoomBringsNothing(from, spans, [Ref(room, job), Ref("", job)], room, job);
    SecondCallOfTwo(from, spans, room, job);
  }
}
