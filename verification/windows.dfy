/** The windows in which a media server was watched (internal/api/mediaserver.go): the log of its reads cut
    where a read failed, where the interval changed and where too long passed. Times and intervals are
    nanoseconds; a time of 0 is the unset time. */
module WatchWindows {
  datatype Read = Read(at: int, ok: bool, every: int)

  datatype Window = Window(start: int, end: int, everySeconds: int)

  /** A stretch of the log, both ends included. */
  datatype Stretch = Stretch(first: nat, last: nat)

  /** Whole seconds, as the source's integer division takes them: towards zero. */
  function Seconds(every: int): int {
    if every >= 0 then every / 1_000_000_000 else -(-every / 1_000_000_000)
  }

  /** A gap longer than three intervals ends a window. */
  predicate Stale(gap: int, every: int) {
    gap > 3 * every
  }

  /** Two neighbouring reads watched without a break. */
  predicate Continues(a: Read, b: Read) {
    a.ok && b.ok && b.every == a.every && !Stale(b.at - a.at, a.every)
  }

  ghost predicate InTimeOrder(log: seq<Read>) {
    && (forall i :: 0 <= i < |log| ==> log[i].at != 0)
    && (forall i, j :: 0 <= i < j < |log| ==> log[i].at < log[j].at)
  }

  /** The watch went on from a read to the next. */
  predicate GoesOn(log: seq<Read>, i: nat) {
    i + 1 < |log| && Continues(log[i], log[i + 1])
  }

  /** A stretch of good reads through which the watch went on, and after which it did not. */
  ghost predicate Whole(log: seq<Read>, s: Stretch) {
    && s.first <= s.last < |log|
    && (forall i: nat :: s.first <= i <= s.last ==> log[i].ok)
    && (forall i: nat :: s.first <= i < s.last ==> GoesOn(log, i))
    && !GoesOn(log, s.last)
  }

  predicate Within(s: Stretch, i: nat) {
    s.first <= i <= s.last
  }

  ghost predicate Covered(cut: seq<Stretch>, i: nat) {
    exists w :: 0 <= w < |cut| && Within(cut[w], i)
  }

  /** The stretches of a log: each whole, apart and in order, with every good read in one. So two neighbouring
      reads are in the same one if and only if the watch went on between them. */
  ghost predicate Cut(log: seq<Read>, cut: seq<Stretch>) {
    && (forall w :: 0 <= w < |cut| ==> Whole(log, cut[w]))
    && (forall v, w :: 0 <= v < w < |cut| ==> cut[v].last < cut[w].first)
    && (forall i {:trigger Covered(cut, i)} :: 0 <= i < |log| && log[i].ok ==> Covered(cut, i))
  }

  predicate WindowOf(w: Window, log: seq<Read>, s: Stretch) {
    && s.first <= s.last < |log|
    && w == Window(log[s.first].at, log[s.last].at, Seconds(log[s.first].every))
  }

  ghost predicate AreWindows(out: seq<Window>, log: seq<Read>, cut: seq<Stretch>) {
    |out| == |cut| && forall w :: 0 <= w < |cut| ==> WindowOf(out[w], log, cut[w])
  }

  lemma WholeStays(log: seq<Read>, r: Read, s: Stretch)
    requires Whole(log, s) && (s.last + 1 == |log| ==> !Continues(log[s.last], r))
    ensures Whole(log + [r], s)
  {
    forall i: nat | s.first <= i < s.last ensures GoesOn(log + [r], i) {
      assert GoesOn(log, i);
    }
  }

  lemma WholeGrows(log: seq<Read>, r: Read, first: nat)
    requires first < |log| && Whole(log, Stretch(first, |log| - 1)) && Continues(log[|log| - 1], r)
    ensures Whole(log + [r], Stretch(first, |log|))
  {
    forall i: nat | first <= i < |log| ensures GoesOn(log + [r], i) {
      if i < |log| - 1 {
        assert GoesOn(log, i);
      }
    }
  }

  lemma StillCovered(cut: seq<Stretch>, more: seq<Stretch>, i: nat)
    requires Covered(cut, i) && |cut| <= |more|
    requires forall w :: 0 <= w < |cut| ==> more[w].first == cut[w].first && more[w].last >= cut[w].last
    ensures Covered(more, i)
  {
    var w :| 0 <= w < |cut| && Within(cut[w], i);
    assert Within(more[w], i);
  }

  lemma CutFails(log: seq<Read>, r: Read, cut: seq<Stretch>)
    requires Cut(log, cut) && !r.ok
    ensures Cut(log + [r], cut)
  {
    forall w | 0 <= w < |cut| ensures Whole(log + [r], cut[w]) {
      WholeStays(log, r, cut[w]);
    }
  }

  /** A good read opens a stretch when none goes on or the watch broke off before it. */
  lemma CutOpens(log: seq<Read>, r: Read, cut: seq<Stretch>)
    requires Cut(log, cut) && r.ok
    requires cut != [] && cut[|cut| - 1].last + 1 == |log| ==> !Continues(log[|log| - 1], r)
    ensures Cut(log + [r], cut + [Stretch(|log|, |log|)])
  {
    var more, all := log + [r], cut + [Stretch(|log|, |log|)];
    forall w | 0 <= w < |all| ensures Whole(more, all[w]) {
      if w < |cut| {
        WholeStays(log, r, cut[w]);
      }
    }
    forall v, w | 0 <= v < w < |all| ensures all[v].last < all[w].first {
      assert Whole(log, cut[v]);
    }
    forall i | 0 <= i < |more| && more[i].ok ensures Covered(all, i) {
      if i < |log| {
        StillCovered(cut, all, i);
      } else {
        assert Within(all[|cut|], i);
      }
    }
  }

  lemma CutGoesOn(log: seq<Read>, r: Read, cut: seq<Stretch>, first: nat)
    requires first < |log| && Cut(log, cut + [Stretch(first, |log| - 1)])
    requires Continues(log[|log| - 1], r)
    ensures Cut(log + [r], cut + [Stretch(first, |log|)])
  {
    var was, all := cut + [Stretch(first, |log| - 1)], cut + [Stretch(first, |log|)];
    assert Whole(log, was[|cut|]);
    WholeGrows(log, r, first);
    forall w | 0 <= w < |cut| ensures Whole(log + [r], all[w]) && all[w].last < first {
      assert Whole(log, was[w]) && was[w].last < was[|cut|].first;
      WholeStays(log, r, was[w]);
    }
    forall v, w | 0 <= v < w < |all| ensures all[v].last < all[w].first {
      assert was[v].last < was[w].first;
    }
    forall i | 0 <= i < |log| && log[i].ok ensures Covered(all, i) {
      StillCovered(was, all, i);
    }
    assert Within(all[|cut|], |log|);
  }

  /** The pass between two reads: no stretch goes on after a failed read; else the one that does began at
      first, and its start, its end so far and its interval are known. */
  ghost predicate Passed(log: seq<Read>, cut: seq<Stretch>, first: nat, start: int, end: int, every: int) {
    if start == 0 then Cut(log, cut) && (log != [] ==> !log[|log| - 1].ok)
    else
      && first < |log| && Cut(log, cut + [Stretch(first, |log| - 1)])
      && log[|log| - 1].ok && start == log[first].at && end == log[|log| - 1].at
      && every == log[first].every == log[|log| - 1].every
  }

  /** What the going stretch becomes when it is flushed. */
  lemma FlushIsWindow(log: seq<Read>, cut: seq<Stretch>, first: nat, start: int, end: int, every: int,
                      out: seq<Window>)
    requires Passed(log, cut, first, start, end, every) && start != 0 && AreWindows(out, log, cut)
    ensures AreWindows(out + [Window(start, end, Seconds(every))], log, cut + [Stretch(first, |log| - 1)])
  {
  }

  lemma WindowsStay(log: seq<Read>, r: Read, cut: seq<Stretch>, out: seq<Window>)
    requires AreWindows(out, log, cut)
    ensures AreWindows(out, log + [r], cut)
  {
    forall w | 0 <= w < |cut| ensures WindowOf(out[w], log + [r], cut[w]) {
      assert WindowOf(out[w], log, cut[w]);
    }
  }

  /** No stretch goes on to a read: none does at all, or the watch broke off before it. */
  ghost predicate Broken(log: seq<Read>, r: Read, cut: seq<Stretch>) {
    && Cut(log, cut)
    && (r.ok && cut != [] && cut[|cut| - 1].last + 1 == |log| ==> !Continues(log[|log| - 1], r))
  }

  lemma Flushed(log: seq<Read>, r: Read, cut: seq<Stretch>, first: nat, start: int, end: int, every: int)
    requires Passed(log, cut, first, start, end, every) && start != 0
    requires !r.ok || r.every != every || Stale(r.at - end, every)
    ensures Broken(log, r, cut + [Stretch(first, |log| - 1)])
  {
  }

  lemma NoneGoesOn(log: seq<Read>, r: Read, cut: seq<Stretch>, first: nat, end: int, every: int)
    requires Passed(log, cut, first, 0, end, every)
    ensures Broken(log, r, cut)
  {
    if cut != [] && log != [] {
      assert Whole(log, cut[|cut| - 1]);
    }
  }

  lemma ReadOpens(log: seq<Read>, r: Read, cut: seq<Stretch>)
    requires Broken(log, r, cut) && r.ok && r.at != 0
    ensures Passed(log + [r], cut, |log|, r.at, r.at, r.every)
  {
    CutOpens(log, r, cut);
  }

  lemma ReadGoesOn(log: seq<Read>, r: Read, cut: seq<Stretch>, first: nat, start: int, end: int, every: int)
    requires Passed(log, cut, first, start, end, every) && start != 0
    requires r.ok && r.every == every && !Stale(r.at - end, every)
    ensures Passed(log + [r], cut, first, start, r.at, every)
  {
    CutGoesOn(log, r, cut, first);
  }

  lemma ReadFails(log: seq<Read>, r: Read, cut: seq<Stretch>, first: nat, end: int, every: int)
    requires Broken(log, r, cut) && !r.ok
    ensures Passed(log + [r], cut, first, 0, end, every)
  {
    CutFails(log, r, cut);
  }

  /** Builds the windows in one pass; end and every are those of the stretch that goes on, if start is set. */
  method Windows(log: seq<Read>) returns (out: seq<Window>)
    requires forall i :: 0 <= i < |log| ==> log[i].at != 0
    ensures exists cut :: Cut(log, cut) && AreWindows(out, log, cut)
  {
    out := [];
    ghost var cut: seq<Stretch> := [];
    var start, end, every := 0, 0, 0;
    ghost var first: nat := 0;
    for n := 0 to |log|
      invariant Passed(log[..n], cut, first, start, end, every)
      invariant AreWindows(out, log[..n], cut)
    {
      var rd := log[n];
      ghost var done := log[..n];
      assert log[..n + 1] == done + [rd];
      if start == 0 {
        NoneGoesOn(done, rd, cut, first, end, every);
      }
      if start != 0 && (!rd.ok || rd.every != every || Stale(rd.at - end, every)) {
        FlushIsWindow(done, cut, first, start, end, every, out);
        Flushed(done, rd, cut, first, start, end, every);
        out := out + [Window(start, end, Seconds(every))];
        cut := cut + [Stretch(first, n - 1)];
        start := 0;
      }
      WindowsStay(done, rd, cut, out);
      if rd.ok {
        if start == 0 {
          ReadOpens(done, rd, cut);
          start, every := rd.at, rd.every;
          first := n;
        } else {
          ReadGoesOn(done, rd, cut, first, start, end, every);
        }
        end := rd.at;
      } else {
        ReadFails(done, rd, cut, first, end, every);
      }
    }
    assert log[..|log|] == log;
    if start != 0 {
      FlushIsWindow(log, cut, first, start, end, every, out);
      out := out + [Window(start, end, Seconds(every))];
      cut := cut + [Stretch(first, |log| - 1)];
    }
  }

  // ----- what the windows say of the log -----

  predicate Inside(w: Window, at: int) {
    w.start <= at <= w.end
  }

  /** A read lies in a window's span of time if and only if it is one of the window's own. */
  lemma InsideIsWithin(log: seq<Read>, cut: seq<Stretch>, out: seq<Window>, w: nat, i: nat)
    requires InTimeOrder(log) && Cut(log, cut) && AreWindows(out, log, cut)
    requires w < |out| && i < |log|
    ensures Inside(out[w], log[i].at) <==> Within(cut[w], i)
  {
    var s := cut[w];
    assert Whole(log, s) && WindowOf(out[w], log, s);
    assert i < s.first ==> log[i].at < log[s.first].at;
    assert i > s.first ==> log[i].at > log[s.first].at;
    assert i < s.last ==> log[i].at < log[s.last].at;
    assert i > s.last ==> log[i].at > log[s.last].at;
  }

  /** Windows come in order and apart. */
  lemma WindowsAreApart(log: seq<Read>, cut: seq<Stretch>, out: seq<Window>, v: nat, w: nat)
    requires InTimeOrder(log) && Cut(log, cut) && AreWindows(out, log, cut)
    requires v < w < |out|
    ensures out[v].start <= out[v].end < out[w].start <= out[w].end
  {
    assert Whole(log, cut[v]) && WindowOf(out[v], log, cut[v]);
    assert Whole(log, cut[w]) && WindowOf(out[w], log, cut[w]);
    assert cut[v].last < cut[w].first;
  }

  /** No two windows can be merged: between neighbours a read failed, or the interval changed, or too long
      passed. */
  lemma NeighboursCannotMerge(log: seq<Read>, cut: seq<Stretch>, out: seq<Window>, w: nat)
    requires InTimeOrder(log) && Cut(log, cut) && AreWindows(out, log, cut)
    requires w + 1 < |out|
    ensures (exists i :: 0 <= i < |log| && out[w].end < log[i].at < out[w + 1].start && !log[i].ok)
            || (exists a, b :: a in log && b in log && a.at == out[w].end && b.at == out[w + 1].start
                               && (a.every != b.every || b.at - a.at > 3 * a.every))
  {
    var s, t := cut[w], cut[w + 1];
    assert Whole(log, s) && WindowOf(out[w], log, s) && Whole(log, t) && WindowOf(out[w + 1], log, t);
    assert s.last < t.first;
    if t.first == s.last + 1 {
      assert !GoesOn(log, s.last);
      assert log[s.last] in log && log[t.first] in log;
    } else {
      var i := s.last + 1;
      CoveredBetween(log, cut, w, i);
      assert log[s.last].at < log[i].at < log[t.first].at;
    }
  }

  /** No read strictly between two neighbouring stretches is good. */
  lemma CoveredBetween(log: seq<Read>, cut: seq<Stretch>, w: nat, i: nat)
    requires Cut(log, cut) && w + 1 < |cut| && cut[w].last < i < cut[w + 1].first && i < |log|
    ensures !log[i].ok
  {
    forall v | 0 <= v < |cut| ensures !Within(cut[v], i) {
      assert Whole(log, cut[v]) && Whole(log, cut[w]) && Whole(log, cut[w + 1]);
      assert v < w ==> cut[v].last < cut[w].first;
      assert v > w + 1 ==> cut[w + 1].last < cut[v].first;
    }
    assert !Covered(cut, i);
  }

  /** A window runs from one good read to another, and says their interval in whole seconds, the rest dropped. */
  lemma WindowsTellReads(log: seq<Read>, cut: seq<Stretch>, out: seq<Window>, w: nat) returns (a: Read, b: Read)
    requires Cut(log, cut) && AreWindows(out, log, cut) && w < |out|
    ensures a in log && b in log && a.ok && b.ok && out[w].start == a.at && out[w].end == b.at
    ensures a.every == b.every
    ensures a.every >= 0 ==> 0 <= a.every - out[w].everySeconds * 1_000_000_000 < 1_000_000_000
    ensures a.every < 0 ==> -1_000_000_000 < a.every - out[w].everySeconds * 1_000_000_000 <= 0
  {
    var s := cut[w];
    assert Whole(log, s) && WindowOf(out[w], log, s);
    a, b := log[s.first], log[s.last];
    SameInterval(log, s, s.last);
  }

  lemma {:induction false} SameInterval(log: seq<Read>, s: Stretch, i: nat)
    requires Whole(log, s) && s.first <= i <= s.last
    ensures log[i].every == log[s.first].every
  {
    if i > s.first {
      SameInterval(log, s, i - 1);
      assert GoesOn(log, i - 1);
    }
  }

  /** Inside a window all reads are good, keep one interval and follow each other within three of it. */
  lemma WindowsAreContinuous(log: seq<Read>, cut: seq<Stretch>, out: seq<Window>, w: nat, i: nat)
    requires InTimeOrder(log) && Cut(log, cut) && AreWindows(out, log, cut)
    requires w < |out| && i + 1 < |log| && Inside(out[w], log[i].at) && Inside(out[w], log[i + 1].at)
    ensures log[i].ok && log[i + 1].ok && log[i].every == log[i + 1].every
    ensures log[i + 1].at - log[i].at <= 3 * log[i].every
  {
    InsideIsWithin(log, cut, out, w, i);
    InsideIsWithin(log, cut, out, w, i + 1);
    assert Whole(log, cut[w]) && GoesOn(log, i);
  }

  /** Every good read lies in exactly one window and no failed read lies in any. */
  lemma ReadsLieInOne(log: seq<Read>, cut: seq<Stretch>, out: seq<Window>, i: nat)
    requires InTimeOrder(log) && Cut(log, cut) && AreWindows(out, log, cut)
    requires i < |log|
    ensures log[i].ok <==> exists w :: 0 <= w < |out| && Inside(out[w], log[i].at)
    ensures forall v, w :: 0 <= v < w < |out| && Inside(out[v], log[i].at) ==> !Inside(out[w], log[i].at)
  {
    if log[i].ok {
      assert Covered(cut, i);
      var w :| 0 <= w < |cut| && Within(cut[w], i);
      InsideIsWithin(log, cut, out, w, i);
    }
    forall w | 0 <= w < |out| && Inside(out[w], log[i].at) ensures log[i].ok {
      InsideIsWithin(log, cut, out, w, i);
      assert Whole(log, cut[w]);
    }
    forall v, w | 0 <= v < w < |out| && Inside(out[v], log[i].at) ensures !Inside(out[w], log[i].at) {
      WindowsAreApart(log, cut, out, v, w);
    }
  }
}
