/** The joiner at work on one trace export (internal/join/spans.go): grouping its spans by reference, joining
    each group against the call index, and naming the calls on the export's own row. */
module TraceExport {
  import opened Common
  import opened TraceIndex
  import opened TraceJoin
  import opened TraceRefs
  import opened TraceMeaning

  datatype TraceCall = TraceCall(trace: string, call: nat)

  /** Groups the spans by reference. */
  method Group(spans: seq<Span>) returns (refs: seq<Ref>, byRef: map<Ref, seq<nat>>)
    ensures refs == FirstSeen(spans)
    ensures forall k :: k in byRef <==> k in refs
    ensures forall k :: k in byRef ==> byRef[k] == PlacesOf(spans, k)
  {
    refs, byRef := [], map[];
    for n := 0 to |spans|
      invariant refs == FirstSeen(spans[..n])
      invariant forall k :: k in byRef <==> k in refs
      invariant forall k :: k != NO_REF ==> PlacesOf(spans[..n], k) == if k in byRef then byRef[k] else []
    {
      assert spans[..n + 1][..n] == spans[..n];
      var k := SpanRef(spans[n]);
      if k != NO_REF {
        if k !in byRef {
          refs := refs + [k];
          byRef := byRef[k := []];
        }
        byRef := byRef[k := byRef[k] + [n]];
      }
    }
    assert spans[..|spans|] == spans;
  }

  // ----- links and the row -----

  function LinksOf(spans: seq<Span>): set<TraceCall> {
    set i | 0 <= i < |spans| && spans[i].call.Some? :: TraceCall(spans[i].trace, spans[i].call.value)
  }

  ghost predicate LinkList(links: seq<TraceCall>, spans: seq<Span>) {
    Distinct(links) && (set l | l in links) == LinksOf(spans)
  }

  /** Adds the links of the spans at idx that are not there yet. */
  method AddLinks(spans: seq<Span>, idx: seq<nat>, links: seq<TraceCall>) returns (all: seq<TraceCall>)
    requires forall n :: 0 <= n < |idx| ==> idx[n] < |spans|
    requires Distinct(links)
    ensures AddedLinks(links, spans, idx, all)
  {
    all := links;
    for n := 0 to |idx|
      invariant Distinct(all)
      invariant forall l :: l in all <==>
                              l in links
                              || exists i :: i in idx[..n] && spans[i].call == Some(l.call) && spans[i].trace == l.trace
    {
      assert idx[..n + 1] == idx[..n] + [idx[n]];
      var sp := spans[idx[n]];
      if sp.call.Some? {
        var l := TraceCall(sp.trace, sp.call.value);
        if l !in all {
          all := all + [l];
        }
      }
    }
    assert idx[..|idx|] == idx;
  }

  /** The call of the export's own row: that of every span that joined, if they joined the same one. */
  method RowCall(spans: seq<Span>) returns (row: Option<nat>)
    ensures RowNames(spans, row)
  {
    var calls: set<nat> := {};
    for n := 0 to |spans|
      invariant calls == CallsOf(spans[..n])
    {
      assert spans[..n + 1] == spans[..n] + [spans[n]];
      if spans[n].call.Some? {
        calls := calls + {spans[n].call.value};
      }
    }
    assert spans[..|spans|] == spans;
    row := None;
    if |calls| == 1 {
      var c :| c in calls;
      row := Some(c);
    }
    OneCallNamesTheRow(spans, calls, row);
  }

  function CallsOf(spans: seq<Span>): set<nat> {
    set i | 0 <= i < |spans| && spans[i].call.Some? :: spans[i].call.value
  }

  lemma OneCallNamesTheRow(spans: seq<Span>, calls: set<nat>, row: Option<nat>)
    requires calls == CallsOf(spans)
    requires if |calls| == 1 then row.Some? && row.value in calls else row.None?
    ensures RowNames(spans, row)
  {
    if |calls| == 1 {
      OnlyOneIn(calls, row.value);
      assert forall i :: 0 <= i < |spans| && spans[i].call.Some? ==> spans[i].call.value in calls;
    } else {
      forall i | 0 <= i < |spans| && spans[i].call.Some?
        ensures exists j :: 0 <= j < |spans| && spans[j].call.Some? && spans[j].call != spans[i].call
      {
        AnotherIn(calls, spans[i].call.value);
      }
    }
  }

  lemma OnlyOneIn(s: set<nat>, x: nat)
    requires x in s && |s| == 1
    ensures s == {x}
  {
    assert |s - {x}| == 0;
  }

  lemma AnotherIn(s: set<nat>, x: nat)
    requires x in s && |s| != 1
    ensures exists y :: y in s && y != x
  {
    assert |s - {x}| == |s| - 1;
    var y :| y in s - {x};
  }

  // ----- joining -----

  /** The spans at idx carry the call if they joined it; no other span changes. */
  ghost predicate Named(before: seq<Span>, after: seq<Span>, idx: seq<nat>, all: bool, ended: Option<int>,
                        call: Option<nat>)
  {
    && |after| == |before|
    && forall i :: 0 <= i < |before| ==>
                     after[i] == if i in idx && all && Fresh(ended, before[i].start) then before[i].(call := call)
                                 else before[i]
  }

  method NameCall(spans: array<Span>, idx: seq<nat>, joined: seq<bool>, call: Option<nat>, ghost all: bool,
                  ghost ended: Option<int>)
    requires |joined| == |idx|
    requires forall n :: 0 <= n < |idx| ==> idx[n] < spans.Length
    requires forall n :: 0 <= n < |idx| ==> joined[n] == (all && Fresh(ended, spans[idx[n]].start))
    modifies spans
    ensures Named(old(spans[..]), spans[..], idx, all, ended, call)
  {
    ghost var before := spans[..];
    for n := 0 to |idx|
      invariant Named(before, spans[..], idx[..n], all, ended, call)
    {
      assert idx[..n + 1] == idx[..n] + [idx[n]];
      if joined[n] {
        spans[idx[n]] := spans[idx[n]].(call := call);
      }
    }
    assert idx[..|idx|] == idx;
  }

  lemma NamedIsJoined(ix: Index, to: Index, before: seq<Span>, after: seq<Span>, k: Ref, idx: seq<nat>,
                      call: Option<nat>)
    requires IndicesOf(before, k, idx)
    requires forall i :: 0 <= i < |before| && SpanRef(before[i]) == k ==> before[i].call.None?
    requires Named(before, after, idx, true, EndedAt(ix, k), call)
    requires call == if AnyFresh(EndedAt(ix, k), Windows(before, idx)) then Find(to, k) else None
    ensures JoinedHere(ix, to, before, after, k)
    ensures call.None? ==> forall n :: 0 <= n < |idx| ==> after[idx[n]].call.None?
  {
    FreshOfRef(ix, before, k, idx);
    forall i | 0 <= i < |before| && SpanRef(before[i]) == k ensures i in idx {
    }
  }

  ghost predicate AddedLinks(links: seq<TraceCall>, spans: seq<Span>, idx: seq<nat>, all: seq<TraceCall>)
    requires forall n :: 0 <= n < |idx| ==> idx[n] < |spans|
  {
    && Distinct(all)
    && forall l :: l in all <==>
                     l in links || exists i :: i in idx && spans[i].call == Some(l.call) && spans[i].trace == l.trace
  }

  lemma LinksGrow(ix: Index, to: Index, before: seq<Span>, after: seq<Span>, k: Ref, idx: seq<nat>,
                  links: seq<TraceCall>, all: seq<TraceCall>)
    requires IndicesOf(before, k, idx) && JoinedHere(ix, to, before, after, k)
    requires forall i :: 0 <= i < |before| && SpanRef(before[i]) == k ==> before[i].call.None?
    requires LinkList(links, before)
    requires AddedLinks(links, after, idx, all)
    ensures LinkList(all, after)
  {
    forall l | l in all ensures l in LinksOf(after) {
      if l in links {
        assert l in LinksOf(before);
        var i :| 0 <= i < |before| && before[i].call.Some? && TraceCall(before[i].trace, before[i].call.value) == l;
        assert after[i] == before[i];
      } else {
        var i :| i in idx && after[i].call == Some(l.call) && after[i].trace == l.trace;
        assert TraceCall(after[i].trace, after[i].call.value) == l;
      }
    }
    forall l | l in LinksOf(after) ensures l in all {
      var i :| 0 <= i < |after| && after[i].call.Some? && TraceCall(after[i].trace, after[i].call.value) == l;
      if SpanRef(before[i]) != k {
        assert before[i] == after[i] && l in LinksOf(before);
        assert l in (set x | x in links);
      } else {
        assert i in idx;
      }
    }
  }

  /** The row names a call if and only if some span joined and all that did joined that one. */
  ghost predicate RowNames(spans: seq<Span>, row: Option<nat>) {
    && (row.Some? <==>
        && (exists i :: 0 <= i < |spans| && spans[i].call.Some?)
        && (forall i, j :: 0 <= i < |spans| && 0 <= j < |spans| && spans[i].call.Some? && spans[j].call.Some? ==>
                             spans[i].call == spans[j].call))
    && (row.Some? ==> exists i :: 0 <= i < |spans| && spans[i].call == row)
  }

  /** What is kept while an export is joined: so many of its references are settled and linked. */
  ghost predicate SettledSoFar(from: Index, given: seq<Span>, ix: Index, spans: seq<Span>, m: nat,
                               links: seq<TraceCall>)
    requires m <= |RefsOf(given)|
  {
    && ix == JoinFirst(from, given, RefsOf(given), m)
    && SameIds(given, spans) && Settled(from, ix, spans, RefsOf(given)[..m]) && LinkList(links, spans)
  }

  /** Joining stopped after some of the references. */
  ghost predicate StoppedAmong(from: Index, given: seq<Span>, ix: Index) {
    exists m :: 0 <= m <= |RefsOf(given)| && ix == JoinFirst(from, given, RefsOf(given), m)
  }

  lemma SettledMeans(from: Index, ix: Index, spans: seq<Span>)
    requires Settled(from, ix, spans, RefsOf(spans))
    ensures AllJoinTheirOwn(ix, spans) && JobsRideAlong(from, ix, spans) && AllTimesAreTheirs(from, ix, spans)
  {
    SettledJoinTheirOwn(from, ix, spans);
    SettledJobsRideAlong(from, ix, spans);
    SettledTimesAreTheirs(from, ix, spans);
  }

  lemma NoneSettledYet(from: Index, given: seq<Span>)
    requires OneCallPerRoom(from) && Unjoined(given)
    ensures SettledSoFar(from, given, from, given, 0, [])
  {
    NothingJoinedYet(from, given);
    assert LinksOf(given) == {};
  }

  lemma NextHasSpans(given: seq<Span>, m: nat)
    requires m < |RefsOf(given)|
    ensures RefsOf(given)[m] in FirstSeen(given)
  {
    RefsAreRoomsThenJobs(given);
    assert RefsOf(given)[m] in RefsOf(given);
  }

  lemma StoppedSoundly(from: Index, given: seq<Span>, ix: Index)
    requires OneCallPerRoom(from) && Unjoined(given) && StoppedAmong(from, given, ix)
    ensures Grown(from, ix) && OneCallPerRoom(ix)
  {
    var m :| 0 <= m <= |RefsOf(given)| && ix == JoinFirst(from, given, RefsOf(given), m);
    RefsAreOrdered(given);
    JoiningSettles(from, given, RefsOf(given), m);
  }

  lemma NextIsReady(from: Index, given: seq<Span>, ix: Index, spans: seq<Span>, m: nat, links: seq<TraceCall>)
    requires m < |RefsOf(given)| && SettledSoFar(from, given, ix, spans, m, links)
    ensures var k := RefsOf(given)[m]; var idx := PlacesOf(given, k);
            && k != NO_REF && idx != [] && IndicesOf(spans, k, idx)
            && (forall i :: 0 <= i < |spans| && SpanRef(spans[i]) == k ==> spans[i].call.None?)
            && Joined(ix, k, Windows(spans, idx)) == JoinFirst(from, given, RefsOf(given), m + 1)
  {
    var order := RefsOf(given);
    RefsAreOrdered(given);
    NextUp(given, order, m);
    SameIdsSameRefs(given, spans, order[m]);
    PlacesAreIndices(spans, order[m]);
    assert Windows(spans, PlacesOf(given, order[m])) == ItemsOf(given, order[m]);
  }

  lemma NowSettled(from: Index, given: seq<Span>, ix: Index, before: seq<Span>, after: seq<Span>, m: nat,
                   links: seq<TraceCall>, all: seq<TraceCall>)
    requires m < |RefsOf(given)| && SettledSoFar(from, given, ix, before, m, links)
    requires SameIds(before, after) && LinkList(all, after)
    requires JoinedHere(ix, JoinFirst(from, given, RefsOf(given), m + 1), before, after, RefsOf(given)[m])
    ensures SettledSoFar(from, given, JoinFirst(from, given, RefsOf(given), m + 1), after, m + 1, all)
  {
    var k := RefsOf(given)[m];
    RefsAreOrdered(given);
    NextUp(given, RefsOf(given), m);
    NextIsReady(from, given, ix, before, m, links);
    StepSettles(from, ix, before, after, RefsOf(given)[..m], k, PlacesOf(given, k));
  }

  class Joiner {
    var index: Index

    /** Opens the call of a room or adds to it; a job it has is kept. */
    method UpsertCall(room: string, job: string, activity: Option<int>, seen: Option<int>) returns (call: nat)
      requires room != ""
      modifies this
      ensures var f := ByRoom(old(index), room);
              if f.None?
              then call == |old(index)| && index == old(index) + [Call(room, job, None, None, activity, seen)]
              else
                var c := old(index)[f.value];
                call == f.value
                && index == old(index)[call := c.(job := if c.job == "" then job else c.job,
                                                  activity := Latest(c.activity, activity),
                                                  firstSeen := Earliest(c.firstSeen, seen))]
    {
      var f := ByRoom(index, room);
      if f.None? {
        call := |index|;
        index := index + [Call(room, job, None, None, activity, seen)];
      } else {
        call := f.value;
        var c := index[call];
        index := index[call := c.(job := FirstOf(c.job, job), activity := Latest(c.activity, activity),
                                  firstSeen := Earliest(c.firstSeen, seen))];
      }
    }

    /** Adds the times of what joined a call by its job. */
    method TouchCall(call: nat, activity: Option<int>, seen: Option<int>)
      requires call < |index|
      modifies this
      ensures var c := old(index)[call];
              index == old(index)[call := c.(activity := Latest(c.activity, activity),
                                             firstSeen := Earliest(c.firstSeen, seen))]
    {
      var c := index[call];
      index := index[call := c.(activity := Latest(c.activity, activity), firstSeen := Earliest(c.firstSeen, seen))];
    }

    /** Joins items of one reference to its call, which is opened if need be. A failed store leaves the
        index as it was or, when only its answer was lost, as joining makes it. */
    method JoinRef(k: Ref, items: seq<Window>) returns (call: Option<nat>, joined: seq<bool>, ok: bool)
      requires k != NO_REF && items != []
      modifies this
      ensures |joined| == |items|
      ensures index in {old(index), Joined(old(index), k, items)}
      ensures ok ==> index == Joined(old(index), k, items)
      ensures ok ==> call == if AnyFresh(EndedAt(old(index), k), items) then Find(index, k) else None
      ensures forall n :: 0 <= n < |items| ==> joined[n] == (ok && Fresh(EndedAt(old(index), k), items[n].start))
    {
      var none := seq(|items|, n => false);
      if * { return None, none, false; }
      var existing, ended := Find(index, k), EndedAt(index, k);
      joined := [];
      var count, activity: Option<int>, seen: Option<int> := 0, None, None;
      for n := 0 to |items|
        invariant |joined| == n
        invariant forall m :: 0 <= m < n ==> joined[m] == Fresh(ended, items[m].start)
        invariant count > 0 <==> exists m :: 0 <= m < n && joined[m]
        invariant activity == LatestEnd(ended, items[..n]) && seen == EarliestStart(ended, items[..n])
      {
        assert items[..n + 1][..n] == items[..n];
        var it := items[n];
        if Fresh(ended, it.start) {
          joined := joined + [true];
          count := count + 1;
          activity := Latest(activity, it.end);
          seen := Earliest(seen, it.start);
        } else {
          joined := joined + [false];
        }
      }
      assert items[..|items|] == items;
      ok, call := true, None;
      if count > 0 {
        if * { return None, none, false; }
        JoinedIsFound(index, k, items);
        if k.room != "" {
          var id := UpsertCall(k.room, k.job, activity, seen);
          call := Some(id);
        } else if existing.Some? {
          TouchCall(existing.value, activity, seen);
          call := existing;
        } else {
          call := Some(|index|);
          index := index + [Call("", k.job, None, None, activity, seen)];
        }
        if * { return None, none, false; }
      }
    }

    /** Joins the spans of k, which are those at idx, and writes their call on each that is not stale. */
    method JoinSpans(spans: array<Span>, k: Ref, idx: seq<nat>) returns (call: Option<nat>, ok: bool)
      requires k != NO_REF && idx != [] && IndicesOf(spans[..], k, idx)
      requires forall i :: 0 <= i < spans.Length && SpanRef(spans[i]) == k ==> spans[i].call.None?
      modifies this, spans
      ensures SameIds(old(spans[..]), spans[..])
      ensures index in {old(index), Joined(old(index), k, Windows(old(spans[..]), idx))}
      ensures ok ==> index == Joined(old(index), k, Windows(old(spans[..]), idx))
      ensures ok ==> JoinedHere(old(index), index, old(spans[..]), spans[..], k)
      ensures ok && call.None? ==> forall n :: 0 <= n < |idx| ==> spans[idx[n]].call.None?
    {
      ghost var before, ended := spans[..], EndedAt(index, k);
      var joined;
      call, joined, ok := JoinRef(k, Windows(spans[..], idx));
      NameCall(spans, idx, joined, call, ok, ended);
      if ok {
        NamedIsJoined(old(index), index, before, spans[..], k, idx, call);
      }
    }

    /** Joins the m-th reference and links its spans' traces. */
    method JoinNext(spans: array<Span>, k: Ref, idx: seq<nat>, links: seq<TraceCall>, ghost from: Index,
                    ghost given: seq<Span>, ghost m: nat)
      returns (all: seq<TraceCall>, ok: bool)
      requires m < |RefsOf(given)| && k == RefsOf(given)[m] && idx == PlacesOf(given, k)
      requires SettledSoFar(from, given, index, spans[..], m, links)
      modifies this, spans
      ensures !ok || SettledSoFar(from, given, index, spans[..], m + 1, all)
      ensures ok || (SameIds(given, spans[..]) && StoppedAmong(from, given, index))
    {
      ghost var ix, before := index, spans[..];
      NextIsReady(from, given, index, spans[..], m, links);
      var call;
      call, ok := JoinSpans(spans, k, idx);
      all := links;
      if ok {
        if call.Some? {
          all := AddLinks(spans[..], idx, links);
        }
        LinksGrow(ix, index, before, spans[..], k, idx, links, all);
        NowSettled(from, given, ix, before, spans[..], m, links, all);
      }
    }

    /** Joins a trace export, whose spans come decoded and unjoined. */
    method Traces(spans: array<Span>) returns (links: seq<TraceCall>, row: Option<nat>, ok: bool)
      requires OneCallPerRoom(index)
      requires Unjoined(spans[..])
      modifies this, spans
      ensures SameIds(old(spans[..]), spans[..])
      ensures Grown(old(index), index) && OneCallPerRoom(index)
      ensures ok || StoppedAmong(old(index), old(spans[..]), index)
      ensures !ok || index == JoinAll(old(index), old(spans[..]))
      ensures !ok || Settled(old(index), index, spans[..], RefsOf(spans[..]))
      ensures !ok || (AllJoinTheirOwn(index, spans[..]) && JobsRideAlong(old(index), index, spans[..])
                      && AllTimesAreTheirs(old(index), index, spans[..]))
      ensures !ok || (LinkList(links, spans[..]) && RowNames(spans[..], row))
    {
      ghost var from, given := index, spans[..];
      var refs, byRef := Group(spans[..]);
      var order := RoomsFirst(refs);
      NoneSettledYet(index, spans[..]);
      links, row, ok := [], None, true;
      for m := 0 to |order|
        invariant ok
        invariant !ok || SettledSoFar(from, given, index, spans[..], m, links)
      {
        NextHasSpans(given, m);
        links, ok := JoinNext(spans, order[m], byRef[order[m]], links, from, given, m);
        if !ok {
          StoppedSoundly(from, given, index);
          return [], None, false;
        }
      }
      assert order[..|order|] == order;
      SameIdsSameRefs(given, spans[..], NO_REF);
      SettledMeans(from, index, spans[..]);
      row := RowCall(spans[..]);
    }
  }

  lemma SameIndexSameSpans(ix: Index, given: seq<Span>, once: seq<Span>, again: seq<Span>, done: seq<Ref>)
    requires SameIds(given, once) && Assigned(ix, once, done)
    requires SameIds(given, again) && Assigned(ix, again, done)
    ensures again == once
  {
    forall i | 0 <= i < |given| ensures again[i] == once[i] {
      assert SpanRef(again[i]) == SpanRef(once[i]) && again[i].start == once[i].start;
    }
  }

  lemma SameCallsSameRow(spans: seq<Span>, row: Option<nat>, again: Option<nat>)
    requires RowNames(spans, row) && RowNames(spans, again)
    ensures again == row
  {
  }

  /** An export joined again, after a failure part way or after all, comes to the index, the calls, and so the
      links and the row, of one joined once. */
  lemma RejoiningGivesTheSame(from: Index, stopped: Index, given: seq<Span>, once: seq<Span>, again: seq<Span>,
                              row: Option<nat>, rowAgain: Option<nat>)
    requires OneCallPerRoom(from) && Unjoined(given) && StoppedAmong(from, given, stopped)
    requires SameIds(given, once) && RowNames(once, row)
    requires Assigned(JoinAll(from, given), once, RefsOf(given))
    requires SameIds(given, again) && RowNames(again, rowAgain)
    requires Assigned(JoinAll(stopped, given), again, RefsOf(given))
    ensures JoinAll(stopped, given) == JoinAll(from, given)
    ensures again == once && rowAgain == row
  {
    var m :| 0 <= m <= |RefsOf(given)| && stopped == JoinFirst(from, given, RefsOf(given), m);
    RejoiningKeepsTheIndex(from, given, m);
    SameIndexSameSpans(JoinAll(from, given), given, once, again, RefsOf(given));
    SameCallsSameRow(once, row, rowAgain);
  }
}
