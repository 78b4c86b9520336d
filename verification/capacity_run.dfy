/** One capacity run: a ramp of calls driven by what the calls see, heartbeats and timers
    (internal/capacity/run.go, runner.go). Whatever the run only observes (an answer of LiveKit or of a
    store, the clock, the CPU, which event or timer comes next and how many come) is an arbitrary value,
    so a contract here holds for every schedule. Times are nanoseconds. */
module CapacityRun {
  import opened Common
  import opened CapacityValues

  datatype Limit =
    | RunFailed | AgentBusy | MaxReached | RunnerLost | Stopped
    | JobFailed | Answer | Pending | Plan | Tester | RealCall

  datatype Outcome = Running | Passed | Failed | Inconclusive

  datatype End = End(limitedBy: Limit, capacity: Option<int>)

  datatype Kind = Joined | Answered | NoAnswer | Left | Lost

  datatype Event = Event(room: string, kind: Kind, at: int, seconds: real)

  datatype Heartbeat = Taken | StopAsked | NotOurs | Unknown

  /** What one beat finds: the store's answer, the CPU and whether the agent is in a room of its own; None is a
      reading that failed. */
  datatype Reading = Reading(now: int, heartbeat: Heartbeat, percent: Option<real>, busy: Option<bool>)

  /** What ends one wait of a step before its timer does. */
  datatype Wake = Cancelled | Arrives(event: Event) | Ticks(reading: Reading)

  datatype Call = Call(room: string, step: int, dispatched: Option<int>, joined: Option<int>, gone: bool,
                       connected: bool)

  datatype StepState = StepState(step: int, startedAt: int, outcome: Outcome, joinSeconds: seq<int>,
                                 answers: seq<real>, late: nat, failed: nat, noAnswer: nat, cpu: seq<real>)

  /** A step as the store is told of it. */
  datatype Row = Row(step: int, outcome: Outcome, calls: nat, joined: nat, pending: nat, failed: nat, late: nat,
                     noAnswer: nat, joinSeconds: seq<int>, answers: seq<real>, cpu: Option<real>)

  /** One write of a step, beside the calls as they stood then. */
  datatype Write = Write(row: Row, calls: seq<Call>)

  /** What the run asks of LiveKit. Create and Delete are attempts; Connect is a caller in the room. */
  datatype Act =
    | Create(room: string) | Connect(room: string) | Dispatch(room: string)
    | Hangup(room: string) | Delete(room: string)

  const PENDING_AFTER := 10_000_000_000
  const TESTER_BUSY := 90.0
  const PLAN_SESSIONS := 5

  /** An answer more than half slower than the first step's. */
  predicate Slower(answer: real, baseline: real) {
    answer > baseline * 1.5
  }

  // ----- counting calls -----

  function Count(cs: seq<Call>, p: Call -> bool): nat {
    if cs == [] then 0 else Count(cs[..|cs| - 1], p) + if p(cs[|cs| - 1]) then 1 else 0
  }

  predicate IsGone(c: Call) { c.gone }
  predicate IsIn(c: Call) { !c.gone && c.joined.Some? }
  predicate IsWaiting(c: Call) { !c.gone && c.joined.None? }

  /** The calls of one step whose agent joined, even if they have gone since. */
  function JoinedOf(step: int): Call -> bool {
    (c: Call) => c.step == step && c.joined.Some?
  }

  lemma {:induction false} EveryCallIsCountedOnce(cs: seq<Call>)
    ensures Count(cs, IsGone) + Count(cs, IsIn) + Count(cs, IsWaiting) == |cs|
  {
    if cs != [] {
      EveryCallIsCountedOnce(cs[..|cs| - 1]);
    }
  }

  lemma {:induction false} CountAfterChange(cs: seq<Call>, p: Call -> bool, i: nat, c: Call)
    requires i < |cs|
    ensures Count(cs[i := c], p) + (if p(cs[i]) then 1 else 0) == Count(cs, p) + if p(c) then 1 else 0
  {
    var last := |cs| - 1;
    if i < last {
      CountAfterChange(cs[..last], p, i, c);
      assert cs[i := c][..last] == cs[..last][i := c];
    } else {
      assert cs[i := c][..last] == cs[..last];
    }
  }

  /** The same call, asked of LiveKit or not. */
  predicate SameCall(before: Call, after: Call) {
    after == before.(connected := after.connected, dispatched := after.dispatched)
  }

  /** Calls added or changed without joining leave a step's joins as they were. */
  ghost predicate NoneJoins(before: seq<Call>, after: seq<Call>) {
    && |before| <= |after|
    && (forall i :: 0 <= i < |before| ==> after[i].step == before[i].step && after[i].joined == before[i].joined)
    && (forall i :: |before| <= i < |after| ==> after[i].joined.None?)
  }

  lemma {:induction false} JoinsStay(before: seq<Call>, after: seq<Call>, step: int)
    requires NoneJoins(before, after)
    ensures Count(after, JoinedOf(step)) == Count(before, JoinedOf(step))
    decreases |after|
  {
    if after != [] {
      var n := |after| - 1;
      JoinsStay(if |before| == |after| then before[..n] else before, after[..n], step);
    }
  }

  lemma SameCallsJoinAlike(before: seq<Call>, grown: seq<Call>, after: seq<Call>)
    requires NoneJoins(before, grown) && |after| == |grown|
    requires forall i :: 0 <= i < |grown| ==> SameCall(grown[i], after[i])
    ensures NoneJoins(before, after)
  {
  }

  lemma AddingKeepsBalance(before: seq<Call>, after: seq<Call>, s: StepState, threshold: int)
    requires NoneJoins(before, after) && Balanced(s, before, threshold)
    ensures Balanced(s, after, threshold)
  {
    JoinsStay(before, after, s.step);
  }

  lemma {:induction false} NoneOfStep(cs: seq<Call>, step: int)
    requires forall i :: 0 <= i < |cs| ==> cs[i].step < step
    ensures Count(cs, JoinedOf(step)) == 0
  {
    if cs != [] {
      NoneOfStep(cs[..|cs| - 1], step);
    }
  }

  function LateOf(waits: seq<int>, threshold: int): (n: nat)
    ensures n <= |waits|
  {
    if waits == [] then 0
    else
      LateOf(waits[..|waits| - 1], threshold)
      + if threshold > 0 && waits[|waits| - 1] > threshold then 1 else 0
  }

  // ----- what a run keeps -----

  predicate Busy(cpu: seq<real>) {
    cpu != [] && MeanOf(cpu) > TESTER_BUSY
  }

  predicate AgentRule(limit: Limit) {
    limit in {Pending, JobFailed, Answer}
  }

  /** The i-th call has the i-th room name, and the map finds each call by its room. */
  ghost predicate InPlace(runId: string, order: seq<Call>, calls: map<string, nat>) {
    && (forall i :: 0 <= i < |order| ==>
                      && order[i].room == RoomName(runId, i + 1)
                      && order[i].room in calls && calls[order[i].room] == i)
    && (forall r :: r in calls ==> calls[r] < |order| && order[calls[r]].room == r)
  }

  ghost predicate AllDispatched(order: seq<Call>) {
    forall i :: 0 <= i < |order| ==> order[i].dispatched.Some?
  }

  /** Every room ever asked for is a call's, every connected caller is known to be, and nothing was cleaned up. */
  ghost predicate Tracked(log: seq<Act>, order: seq<Call>, calls: map<string, nat>) {
    forall a :: a in log ==>
                  && !a.Hangup? && !a.Delete? && a.room in calls && calls[a.room] < |order|
                  && (a.Connect? ==> order[calls[a.room]].connected)
  }

  /** A step has one join time for each of its calls that joined, and counts the late ones among them. */
  ghost predicate Balanced(s: StepState, order: seq<Call>, threshold: int) {
    && |s.joinSeconds| == Count(order, JoinedOf(s.step))
    && s.late == LateOf(s.joinSeconds, threshold)
  }

  /** What every write of a step promises its reader. */
  ghost predicate GoodWrite(w: Write, threshold: int) {
    && w.row.calls == |w.calls|
    && w.row.joined == Count(w.calls, IsIn)
    && w.row.pending == Count(w.calls, IsWaiting)
    && w.row.joined + w.row.pending + Count(w.calls, IsGone) == w.row.calls
    && |w.row.joinSeconds| == Count(w.calls, JoinedOf(w.row.step))
    && w.row.late == LateOf(w.row.joinSeconds, threshold) <= |w.row.joinSeconds|
    && (w.row.outcome in {Passed, Failed} ==> w.row.cpu.None? || w.row.cpu.value <= 90.0)
  }

  function PassedSteps(ws: seq<Write>): seq<int> {
    if ws == [] then []
    else PassedSteps(ws[..|ws| - 1])
         + if ws[|ws| - 1].row.outcome.Passed? then [ws[|ws| - 1].row.step] else []
  }

  function LastPassed(ws: seq<Write>): Option<int> {
    var passed := PassedSteps(ws);
    if passed == [] then None else Some(passed[|passed| - 1])
  }

  /** The median answer of the first step that passed. */
  function FirstMedian(ws: seq<Write>): Option<real> {
    if ws == [] then None
    else
      var first, w := FirstMedian(ws[..|ws| - 1]), ws[|ws| - 1];
      if first.None? && w.row.outcome.Passed? then MedianOf(w.row.answers) else first
  }

  predicate KeepsUp(w: Write, first: Option<real>) {
    && MedianOf(w.row.answers).Some?
    && (w.row.step == 1 || (first.Some? && !Slower(MedianOf(w.row.answers).value, first.value)))
  }

  /** A run's writes one by one: each is good, and one that passes is of the next rung and keeps up with the
      first. */
  ghost predicate Climbed(ws: seq<Write>, threshold: int) {
    ws == [] ||
    (var before, w := ws[..|ws| - 1], ws[|ws| - 1];
     && Climbed(before, threshold)
     && GoodWrite(w, threshold)
     && (w.row.outcome.Passed? ==> w.row.step == Pow2(|PassedSteps(before)|) && KeepsUp(w, FirstMedian(before))))
  }

  /** What a run remembers of its writes: the last step that passed and the first one's median answer. */
  ghost predicate Remembered(ws: seq<Write>, capacity: Option<int>, baseline: real) {
    && capacity == LastPassed(ws)
    && FirstMedian(ws) == if PassedSteps(ws) == [] then None else Some(baseline)
  }

  /** Both answered, and w not more than half as slow again as v. */
  predicate PacedBy(w: Write, v: Write) {
    && MedianOf(v.row.answers).Some? && MedianOf(w.row.answers).Some?
    && (w.row.step != 1 ==> MedianOf(w.row.answers).value <= MedianOf(v.row.answers).value * 1.5)
  }

  /** Every step that passed is paced by the step of one call. */
  ghost predicate PacedByTheFirst(ws: seq<Write>) {
    forall v, w :: v in ws && w in ws && v.row.outcome.Passed? && w.row.outcome.Passed? && v.row.step == 1 ==>
                     PacedBy(w, v)
  }

  /** All writes are good; the steps passed are the first of 1, 2, 4 and so on; and each of them had a median
      answer at most one and a half times the first one's. */
  ghost predicate Measured(ws: seq<Write>, threshold: int) {
    && (forall w :: w in ws ==> GoodWrite(w, threshold))
    && PassedSteps(ws) == Rungs(|PassedSteps(ws)|)
    && PacedByTheFirst(ws)
  }

  function RowOf(s: StepState, order: seq<Call>): Row {
    Row(s.step, s.outcome, |order|, Count(order, IsIn), Count(order, IsWaiting), s.failed, s.late, s.noAnswer,
        s.joinSeconds, s.answers, if s.cpu == [] then None else Some(MeanOf(s.cpu)))
  }

  lemma WriteIsGood(s: StepState, order: seq<Call>, threshold: int)
    requires Balanced(s, order, threshold)
    requires s.outcome in {Passed, Failed} ==> !Busy(s.cpu)
    ensures GoodWrite(Write(RowOf(s, order), order), threshold)
  {
    EveryCallIsCountedOnce(order);
  }

  lemma {:induction false} ClimbedRungs(ws: seq<Write>, threshold: int)
    requires Climbed(ws, threshold)
    ensures PassedSteps(ws) == Rungs(|PassedSteps(ws)|)
    ensures PassedSteps(ws) == [] <==> FirstMedian(ws) == None
  {
    if ws != [] {
      ClimbedRungs(ws[..|ws| - 1], threshold);
      RungsGrow(|PassedSteps(ws[..|ws| - 1])|);
    }
  }

  lemma {:induction false} ClimbedAreGood(ws: seq<Write>, threshold: int, w: Write)
    requires Climbed(ws, threshold) && w in ws
    ensures GoodWrite(w, threshold)
  {
    if w != ws[|ws| - 1] {
      ClimbedAreGood(ws[..|ws| - 1], threshold, w);
    }
  }

  lemma {:induction false} ClimbedKeepUp(ws: seq<Write>, threshold: int, w: Write)
    requires Climbed(ws, threshold) && w in ws && w.row.outcome.Passed?
    ensures KeepsUp(w, FirstMedian(ws))
  {
    var before := ws[..|ws| - 1];
    if w != ws[|ws| - 1] {
      ClimbedKeepUp(before, threshold, w);
    } else {
      ClimbedRungs(before, threshold);
      FirstRung(|PassedSteps(before)|);
    }
  }

  /** Only one write passes the step of one call, and its median is the first. */
  lemma {:induction false} FirstIsFirst(ws: seq<Write>, threshold: int, v: Write)
    requires Climbed(ws, threshold) && v in ws && v.row.outcome.Passed? && v.row.step == 1
    ensures FirstMedian(ws) == MedianOf(v.row.answers)
  {
    var before, w := ws[..|ws| - 1], ws[|ws| - 1];
    ClimbedRungs(before, threshold);
    if w.row.outcome.Passed? {
      FirstRung(|PassedSteps(before)|);
    }
    assert ws == before + [w];
    if v in before {
      FirstIsFirst(before, threshold, v);
      ClimbedKeepUp(before, threshold, v);
    } else {
      assert v == w && PassedSteps(before) == [];
    }
  }

  lemma PassedArePaced(ws: seq<Write>, threshold: int, v: Write, w: Write)
    requires Climbed(ws, threshold) && v in ws && w in ws
    requires v.row.outcome.Passed? && w.row.outcome.Passed? && v.row.step == 1
    ensures PacedBy(w, v)
  {
    FirstIsFirst(ws, threshold, v);
    ClimbedKeepUp(ws, threshold, v);
    ClimbedKeepUp(ws, threshold, w);
  }

  lemma ClimbIsPaced(ws: seq<Write>, threshold: int)
    requires Climbed(ws, threshold)
    ensures PacedByTheFirst(ws)
  {
    forall v, w | v in ws && w in ws && v.row.outcome.Passed? && w.row.outcome.Passed? && v.row.step == 1
      ensures PacedBy(w, v)
    {
      PassedArePaced(ws, threshold, v, w);
    }
  }

  /** What follows one write at a time holds of all of them. */
  lemma {:induction false} ClimbIsMeasured(ws: seq<Write>, threshold: int)
    requires Climbed(ws, threshold)
    ensures Measured(ws, threshold)
  {
    ClimbedRungs(ws, threshold);
    forall w | w in ws ensures GoodWrite(w, threshold) {
      ClimbedAreGood(ws, threshold, w);
    }
    ClimbIsPaced(ws, threshold);
  }

  /** Only the first rung is 1. */
  lemma FirstRung(k: nat)
    ensures Pow2(k) == 1 <==> k == 0
  {
    Pow2Monotone(if k == 0 then 0 else 1, k);
  }

  /** A write that passes nothing leaves the run where it was. */
  lemma WritingKeeps(ws: seq<Write>, s: StepState, order: seq<Call>, threshold: int, capacity: Option<int>,
                     baseline: real)
    requires Climbed(ws, threshold) && Remembered(ws, capacity, baseline)
    requires Balanced(s, order, threshold)
    requires !s.outcome.Passed? && (s.outcome.Failed? ==> !Busy(s.cpu))
    ensures var after := ws + [Write(RowOf(s, order), order)];
            && PassedSteps(after) == PassedSteps(ws)
            && Climbed(after, threshold) && Remembered(after, capacity, baseline)
  {
    WriteIsGood(s, order, threshold);
    assert (ws + [Write(RowOf(s, order), order)])[..|ws|] == ws;
  }

  /** The median answer is the first step's own, or keeps up with it. */
  predicate OnPace(s: StepState, baseline: real) {
    var median := MedianOf(s.answers);
    median.Some? && if s.step == 1 then median.value == baseline else !Slower(median.value, baseline)
  }

  /** A write that passes the next rung makes it the capacity. */
  lemma PassingKeeps(ws: seq<Write>, s: StepState, order: seq<Call>, threshold: int, capacity: Option<int>,
                     baseline: real)
    requires Climbed(ws, threshold) && Remembered(ws, capacity, baseline)
    requires Balanced(s, order, threshold)
    requires s.outcome.Passed? && !Busy(s.cpu) && s.step == Pow2(|PassedSteps(ws)|)
    requires OnPace(s, baseline)
    ensures var after := ws + [Write(RowOf(s, order), order)];
            && PassedSteps(after) == PassedSteps(ws) + [s.step]
            && Climbed(after, threshold) && Remembered(after, Some(s.step), baseline)
  {
    WriteIsGood(s, order, threshold);
    FirstRung(|PassedSteps(ws)|);
    assert (ws + [Write(RowOf(s, order), order)])[..|ws|] == ws;
  }

  // ----- the rooms afterwards -----

  function Cleaning(order: seq<Call>): seq<Act> {
    if order == [] then []
    else
      var c := order[|order| - 1];
      Cleaning(order[..|order| - 1]) + (if c.connected then [Hangup(c.room)] else []) + [Delete(c.room)]
  }

  lemma {:induction false} CleaningReaches(order: seq<Call>, i: nat)
    requires i < |order|
    ensures Delete(order[i].room) in Cleaning(order)
    ensures order[i].connected ==> Hangup(order[i].room) in Cleaning(order)
  {
    if i < |order| - 1 {
      CleaningReaches(order[..|order| - 1], i);
    }
  }

  lemma {:induction false} CleaningOnlyCleans(order: seq<Call>)
    ensures forall a :: a in Cleaning(order) ==> a.Hangup? || a.Delete?
  {
    if order != [] {
      CleaningOnlyCleans(order[..|order| - 1]);
    }
  }

  /** From some point on the run only cleans up, and what it cleans up after that point is every room whose
      creation it attempted and every caller it connected. */
  ghost predicate CleanedUp(log: seq<Act>) {
    exists n: nat :: n <= |log| && CleanedUpFrom(log, n)
  }

  ghost predicate CleanedUpFrom(log: seq<Act>, n: nat)
    requires n <= |log|
  {
    && (forall a :: a in log[n..] ==> a.Hangup? || a.Delete?)
    && (forall a :: a in log && a.Create? ==> Delete(a.room) in log[n..])
    && (forall a :: a in log && a.Connect? ==> Hangup(a.room) in log[n..])
  }

  lemma CleaningCleansUp(runId: string, log: seq<Act>, order: seq<Call>, calls: map<string, nat>)
    requires InPlace(runId, order, calls) && Tracked(log, order, calls)
    ensures CleanedUp(log + Cleaning(order))
  {
    var all, n := log + Cleaning(order), |log|;
    CleaningOnlyCleans(order);
    assert all[n..] == Cleaning(order);
    forall a | a in all && (a.Create? || a.Connect?)
      ensures Delete(a.room) in all[n..]
      ensures a.Connect? ==> Hangup(a.room) in all[n..]
    {
      assert a in log;
      CleaningReaches(order, calls[a.room]);
    }
    assert CleanedUpFrom(all, n);
  }

  // ----- one event -----

  /** What one call's event makes of the call, of the step, and of the run. */
  function Applied(c: Call, s: StepState, ev: Event, threshold: int): (Call, StepState, Option<Limit>)
    requires c.dispatched.Some?
  {
    if c.gone then (c, s, None)
    else
      match ev.kind
      case Joined =>
        if c.joined.Some? then (c, s, None)
        else
          var wait := ev.at - c.dispatched.value;
          (c.(joined := Some(ev.at)),
           if c.step != s.step then s
           else s.(joinSeconds := s.joinSeconds + [wait],
                   late := s.late + if threshold > 0 && wait > threshold then 1 else 0),
           None)
      case Answered =>
        (c, if ev.at < s.startedAt then s else s.(answers := s.answers + [ev.seconds]), None)
      case NoAnswer => (c, s.(noAnswer := s.noAnswer + 1), Some(Answer))
      case Left => (c.(gone := true), s.(failed := s.failed + 1), Some(JobFailed))
      case Lost => (c.(gone := true), s, Some(RunFailed))
  }

  /** What an event of a call that is there says of the run: no answer and a departure are the agent's, a lost caller
      the run's, and a join or an answer goes on. */
  function EndsAs(kind: Kind): Option<Limit> {
    match kind
    case NoAnswer => Some(Answer)
    case Left => Some(JobFailed)
    case Lost => Some(RunFailed)
    case _ => None
  }

  /** The n calls of a step that connected them: all in place, tracked and dispatched. */
  ghost predicate Attending(runId: string, order: seq<Call>, calls: map<string, nat>, log: seq<Act>, n: int) {
    && InPlace(runId, order, calls) && Tracked(log, order, calls)
    && AllDispatched(order)
    && |order| == n
    && (forall i :: 0 <= i < |order| ==> order[i].step <= n)
  }

  lemma JoinCounts(order: seq<Call>, i: nat, c: Call, step: int)
    requires i < |order| && c.step == order[i].step && (order[i].joined.Some? ==> c.joined.Some?)
    ensures Count(order[i := c], JoinedOf(step))
            == Count(order, JoinedOf(step))
               + if c.step == step && c.joined.Some? && order[i].joined.None? then 1 else 0
  {
    CountAfterChange(order, JoinedOf(step), i, c);
  }

  lemma LateGrows(waits: seq<int>, wait: int, threshold: int)
    ensures LateOf(waits + [wait], threshold)
            == LateOf(waits, threshold) + if threshold > 0 && wait > threshold then 1 else 0
  {
    assert (waits + [wait])[..|waits|] == waits;
  }

  /** Only a join of one of the step's own calls is timed. */
  predicate Timed(c: Call, s: StepState, ev: Event) {
    !c.gone && ev.kind.Joined? && c.joined.None? && c.step == s.step
  }

  lemma OnlyJoinsAreTimed(c: Call, s: StepState, ev: Event, threshold: int)
    requires c.dispatched.Some?
    ensures var (c', s', _) := Applied(c, s, ev, threshold);
            && c' == c.(joined := c'.joined, gone := c'.gone) && s'.step == s.step && s'.outcome == s.outcome
            && (c.joined.Some? ==> c'.joined.Some?)
            && (Timed(c, s, ev) <==> c.step == s.step && c.joined.None? && c'.joined.Some?)
            && s'.joinSeconds == s.joinSeconds + (if Timed(c, s, ev) then [ev.at - c.dispatched.value] else [])
    ensures !Timed(c, s, ev) ==> Applied(c, s, ev, threshold).1.late == s.late
  {
  }

  /** An event keeps a step's join times and its late count those of its own calls. */
  lemma AppliedKeepsBalance(order: seq<Call>, i: nat, s: StepState, ev: Event, threshold: int)
    requires i < |order| && order[i].dispatched.Some?
    requires Balanced(s, order, threshold)
    ensures var (c, s', _) := Applied(order[i], s, ev, threshold); Balanced(s', order[i := c], threshold)
  {
    var c := order[i];
    OnlyJoinsAreTimed(c, s, ev, threshold);
    JoinCounts(order, i, Applied(c, s, ev, threshold).0, s.step);
    if Timed(c, s, ev) {
      LateGrows(s.joinSeconds, ev.at - c.dispatched.value, threshold);
    }
  }

  lemma AppliedKeepsCalls(runId: string, order: seq<Call>, calls: map<string, nat>, log: seq<Act>, n: int, i: nat,
                          s: StepState, ev: Event, threshold: int)
    requires Attending(runId, order, calls, log, n)
    requires i < |order|
    ensures Attending(runId, order[i := Applied(order[i], s, ev, threshold).0], calls, log, n)
  {
    OnlyJoinsAreTimed(order[i], s, ev, threshold);
    SameFateElsewhere(runId, order, calls, log, i, Applied(order[i], s, ev, threshold).0);
  }

  /** All an event keeps of the step and its calls. */
  lemma AppliedKeeps(runId: string, order: seq<Call>, calls: map<string, nat>, log: seq<Act>, i: nat, s: StepState,
                     ev: Event, threshold: int, c: Call, s': StepState, limit: Option<Limit>)
    requires Attending(runId, order, calls, log, s.step) && Balanced(s, order, threshold)
    requires i < |order| && (c, s', limit) == Applied(order[i], s, ev, threshold)
    ensures Attending(runId, order[i := c], calls, log, s.step) && Balanced(s', order[i := c], threshold)
    ensures s'.step == s.step && s'.outcome == s.outcome
    ensures limit.Some? ==> limit.value in {Answer, JobFailed, RunFailed}
  {
    AppliedKeepsCalls(runId, order, calls, log, s.step, i, s, ev, threshold);
    AppliedKeepsBalance(order, i, s, ev, threshold);
    OnlyJoinsAreTimed(order[i], s, ev, threshold);
  }

  lemma SameFateElsewhere(runId: string, order: seq<Call>, calls: map<string, nat>, log: seq<Act>, i: nat, c: Call)
    requires InPlace(runId, order, calls) && Tracked(log, order, calls)
    requires i < |order| && c.room == order[i].room && (order[i].connected ==> c.connected)
    ensures InPlace(runId, order[i := c], calls) && Tracked(log, order[i := c], calls)
  {
  }

  function ActsFor(c: Call): seq<Act> {
    [Create(c.room)] + if c.connected then [Connect(c.room), Dispatch(c.room)] else []
  }

  lemma ConnectingKeeps(runId: string, order: seq<Call>, calls: map<string, nat>, log: seq<Act>, i: nat, c: Call)
    requires InPlace(runId, order, calls) && Tracked(log, order, calls)
    requires i < |order| && SameCall(order[i], c) && !order[i].connected
    ensures InPlace(runId, order[i := c], calls) && Tracked(log + ActsFor(c), order[i := c], calls)
    ensures Create(c.room) in log + ActsFor(c)
  {
    SameFateElsewhere(runId, order, calls, log, i, c);
  }

  /** A job that waits too long for its agent. */
  predicate Stuck(c: Call, now: int) {
    c.joined.None? && c.dispatched.Some? && now - c.dispatched.value >= PENDING_AFTER
  }

  lemma OneMoreInPlace(runId: string, order: seq<Call>, calls: map<string, nat>, log: seq<Act>, c: Call)
    requires InPlace(runId, order, calls) && Tracked(log, order, calls)
    requires c.room == RoomName(runId, |order| + 1)
    ensures InPlace(runId, order + [c], calls[c.room := |order|])
    ensures Tracked(log, order + [c], calls[c.room := |order|])
  {
    forall i | 0 <= i < |order| ensures order[i].room != c.room {
      RoomsDiffer(runId, i + 1, |order| + 1);
    }
    assert c.room !in calls;
  }

  // ----- events that wait when a step's time is up -----

  /** An event applied to its call, and to the step; one of a room that is no call's changes nothing. */
  function Heard(calls: map<string, nat>, order: seq<Call>, s: StepState, ev: Event, threshold: int)
    : (seq<Call>, StepState)
  {
    if ev.room in calls && calls[ev.room] < |order| && order[calls[ev.room]].dispatched.Some? then
      var (c, s', _) := Applied(order[calls[ev.room]], s, ev, threshold);
      (order[calls[ev.room] := c], s')
    else (order, s)
  }

  function HeardAll(calls: map<string, nat>, order: seq<Call>, s: StepState, evs: seq<Event>, threshold: int)
    : (seq<Call>, StepState)
  {
    if evs == [] then (order, s)
    else
      var (o, s') := HeardAll(calls, order, s, evs[..|evs| - 1], threshold);
      Heard(calls, o, s', evs[|evs| - 1], threshold)
  }

  /** The event is of the ith call. */
  predicate Of(calls: map<string, nat>, ev: Event, i: nat) {
    ev.room in calls && calls[ev.room] == i
  }

  /** The ith call is of the run and has not gone: not before these events, and not by one of the first n. */
  predicate ThereStill(calls: map<string, nat>, order: seq<Call>, evs: seq<Event>, n: nat, i: nat)
    requires n <= |evs| && i < |order|
  {
    && order[i].dispatched.Some? && !order[i].gone
    && forall m :: 0 <= m < n && Of(calls, evs[m], i) ==> !evs[m].kind.Left? && !evs[m].kind.Lost?
  }

  /** The nth event is of a call that is there when it comes. */
  predicate Present(calls: map<string, nat>, order: seq<Call>, evs: seq<Event>, n: nat)
    requires n < |evs|
  {
    evs[n].room in calls && calls[evs[n].room] < |order| && ThereStill(calls, order, evs, n, calls[evs[n].room])
  }

  /** These are the seconds of the answers of calls that were there then, in order, leaving out those from before
      the step. */
  ghost predicate AnswersOf(calls: map<string, nat>, order: seq<Call>, evs: seq<Event>, startedAt: int,
                            seconds: seq<real>, at: seq<nat>)
  {
    && |at| == |seconds|
    && (forall i :: 0 <= i < |at| ==> at[i] < |evs| && evs[at[i]].seconds == seconds[i])
    && (forall i, j :: 0 <= i < j < |at| ==> at[i] < at[j])
    && (forall n :: 0 <= n < |evs| ==>
          (n in at <==> evs[n].kind.Answered? && evs[n].at >= startedAt && Present(calls, order, evs, n)))
  }

  /** How many events of this kind were of calls that were there then. */
  function HowMany(calls: map<string, nat>, order: seq<Call>, evs: seq<Event>, kind: Kind): nat {
    if evs == [] then 0
    else
      HowMany(calls, order, evs[..|evs| - 1], kind)
      + if evs[|evs| - 1].kind == kind && Present(calls, order, evs, |evs| - 1) then 1 else 0
  }

  lemma PresentBefore(calls: map<string, nat>, order: seq<Call>, evs: seq<Event>, n: nat, k: nat)
    requires n < k <= |evs|
    ensures Present(calls, order, evs[..k], n) <==> Present(calls, order, evs, n)
  {
    assert forall m :: 0 <= m <= n ==> evs[..k][m] == evs[m];
  }

  /** A call that was there is gone if and only if an event said that the agent left it or that it was lost. */
  lemma {:induction false} HearingGoes(calls: map<string, nat>, order: seq<Call>, s: StepState, evs: seq<Event>,
                                       threshold: int, i: nat)
    requires i < |order|
    ensures var o := HeardAll(calls, order, s, evs, threshold).0;
            && |o| == |order| && o[i].dispatched == order[i].dispatched
            && (order[i].dispatched.Some? ==> (o[i].gone <==> !ThereStill(calls, order, evs, |evs|, i)))
  {
    if evs != [] {
      var before := evs[..|evs| - 1];
      HearingGoes(calls, order, s, before, threshold, i);
      assert forall m :: 0 <= m < |before| ==> before[m] == evs[m];
      assert ThereStill(calls, order, evs, |evs| - 1, i) <==> ThereStill(calls, order, before, |before|, i);
      var ev := evs[|evs| - 1];
      if ev.room in calls && calls[ev.room] < |order| && calls[ev.room] != i {
        HearingGoes(calls, order, s, before, threshold, calls[ev.room]);
      }
    }
  }

  lemma LastPresent(calls: map<string, nat>, order: seq<Call>, s: StepState, evs: seq<Event>, threshold: int)
    requires evs != []
    ensures var (o, s') := HeardAll(calls, order, s, evs[..|evs| - 1], threshold);
            var ev := evs[|evs| - 1];
            && |o| == |order|
            && (Present(calls, order, evs, |evs| - 1) <==>
                && ev.room in calls && calls[ev.room] < |o|
                && o[calls[ev.room]].dispatched.Some? && !o[calls[ev.room]].gone)
  {
    var before, ev := evs[..|evs| - 1], evs[|evs| - 1];
    assert forall m :: 0 <= m < |before| ==> before[m] == evs[m];
    HearingKeeps(calls, order, s, before, threshold);
    if ev.room in calls && calls[ev.room] < |order| {
      var i := calls[ev.room];
      HearingGoes(calls, order, s, before, threshold, i);
      assert ThereStill(calls, order, evs, |evs| - 1, i) <==> ThereStill(calls, order, before, |before|, i);
    }
  }

  lemma {:induction false} HearingKeeps(calls: map<string, nat>, order: seq<Call>, s: StepState,
                                               evs: seq<Event>, threshold: int)
    ensures |HeardAll(calls, order, s, evs, threshold).0| == |order|
    ensures HeardAll(calls, order, s, evs, threshold).1.startedAt == s.startedAt
  {
    if evs != [] {
      HearingKeeps(calls, order, s, evs[..|evs| - 1], threshold);
    }
  }

  lemma AnswersMore(calls: map<string, nat>, order: seq<Call>, evs: seq<Event>, startedAt: int, seconds: seq<real>,
                    at: seq<nat>)
    requires evs != [] && AnswersOf(calls, order, evs[..|evs| - 1], startedAt, seconds, at)
    ensures var ev, n := evs[|evs| - 1], |evs| - 1;
            if ev.kind.Answered? && ev.at >= startedAt && Present(calls, order, evs, n)
            then AnswersOf(calls, order, evs, startedAt, seconds + [ev.seconds], at + [n])
            else AnswersOf(calls, order, evs, startedAt, seconds, at)
  {
    var before, n := evs[..|evs| - 1], |evs| - 1;
    assert forall m :: m in at + [n] <==> m in at || m == n;
    forall m | 0 <= m < n
      ensures before[m] == evs[m] && (Present(calls, order, before, m) <==> Present(calls, order, evs, m))
    {
      PresentBefore(calls, order, evs, m, n);
    }
  }

  /** What a step counts of the events it hears: the answers of calls that were there, given since it started, in
      the order heard; and one missing answer or failure for each that such a call reported. */
  lemma {:induction false} HearingCounts(calls: map<string, nat>, order: seq<Call>, s: StepState, evs: seq<Event>,
                                         threshold: int)
    returns (seconds: seq<real>, at: seq<nat>)
    ensures AnswersOf(calls, order, evs, s.startedAt, seconds, at)
    ensures var s' := HeardAll(calls, order, s, evs, threshold).1;
            && s'.answers == s.answers + seconds
            && s'.noAnswer == s.noAnswer + HowMany(calls, order, evs, NoAnswer)
            && s'.failed == s.failed + HowMany(calls, order, evs, Left)
  {
    seconds, at := [], [];
    if evs != [] {
      var n := |evs| - 1;
      seconds, at := HearingCounts(calls, order, s, evs[..n], threshold);
      LastPresent(calls, order, s, evs, threshold);
      HearingKeeps(calls, order, s, evs[..n], threshold);
      AnswersMore(calls, order, evs, s.startedAt, seconds, at);
      if evs[n].kind.Answered? && evs[n].at >= s.startedAt && Present(calls, order, evs, n) {
        seconds, at := seconds + [evs[n].seconds], at + [n];
      }
    }
  }

  /** The nth event is the first join heard of a call that is there. */
  predicate FirstJoin(calls: map<string, nat>, order: seq<Call>, evs: seq<Event>, n: nat, i: nat)
    requires n < |evs| && i < |order|
  {
    && evs[n].kind.Joined? && Of(calls, evs[n], i) && ThereStill(calls, order, evs, n, i)
    && forall m :: 0 <= m < n ==> !(evs[m].kind.Joined? && Of(calls, evs[m], i))
  }

  lemma FirstJoinBefore(calls: map<string, nat>, order: seq<Call>, evs: seq<Event>, n: nat, k: nat, i: nat)
    requires n < k <= |evs| && i < |order|
    ensures FirstJoin(calls, order, evs[..k], n, i) <==> FirstJoin(calls, order, evs, n, i)
  {
    assert forall m :: 0 <= m <= n ==> evs[..k][m] == evs[m];
  }

  /** A call that had not joined has the time of the first join heard of it while it was there, if any. */
  lemma {:induction false} HearingJoins(calls: map<string, nat>, order: seq<Call>, s: StepState, evs: seq<Event>,
                                        threshold: int, i: nat)
    requires i < |order| && order[i].joined.None?
    ensures var o := HeardAll(calls, order, s, evs, threshold).0;
            && |o| == |order|
            && (o[i].joined.None? ==> forall n :: 0 <= n < |evs| ==> !FirstJoin(calls, order, evs, n, i))
            && (o[i].joined.Some? ==>
                  exists n :: 0 <= n < |evs| && FirstJoin(calls, order, evs, n, i) && o[i].joined == Some(evs[n].at))
  {
    HearingKeeps(calls, order, s, evs, threshold);
    if evs != [] {
      var before, last := evs[..|evs| - 1], |evs| - 1;
      HearingJoins(calls, order, s, before, threshold, i);
      HearingKeeps(calls, order, s, before, threshold);
      LastPresent(calls, order, s, evs, threshold);
      forall n | 0 <= n < last
        ensures before[n] == evs[n] && (FirstJoin(calls, order, before, n, i) <==> FirstJoin(calls, order, evs, n, i))
      {
        FirstJoinBefore(calls, order, evs, n, last, i);
      }
      if HeardAll(calls, order, s, before, threshold).0[i].joined.None? {
        LastJoin(calls, order, s, evs, threshold, i);
      }
    }
  }

  /** If no join was heard of the ith call, and the last event is one while the call is there, it is the first. */
  lemma LastJoin(calls: map<string, nat>, order: seq<Call>, s: StepState, evs: seq<Event>, threshold: int, i: nat)
    requires i < |order| && order[i].joined.None? && evs != []
    requires var o := HeardAll(calls, order, s, evs[..|evs| - 1], threshold).0;
             |o| == |order| && o[i].joined.None?
    requires forall n :: 0 <= n < |evs| - 1 ==> !FirstJoin(calls, order, evs, n, i)
    ensures FirstJoin(calls, order, evs, |evs| - 1, i)
            <==> evs[|evs| - 1].kind.Joined? && Of(calls, evs[|evs| - 1], i) && Present(calls, order, evs, |evs| - 1)
  {
    var last := |evs| - 1;
    if evs[last].kind.Joined? && Of(calls, evs[last], i) && Present(calls, order, evs, last) {
      if exists m :: 0 <= m < last && evs[m].kind.Joined? && Of(calls, evs[m], i) {
        var m := EarliestJoin(calls, evs, last, i);
        assert FirstJoin(calls, order, evs, m, i);
        assert false;
      }
    }
  }

  lemma {:induction false} EarliestJoin(calls: map<string, nat>, evs: seq<Event>, n: nat, i: nat) returns (m: nat)
    requires n <= |evs| && exists m :: 0 <= m < n && evs[m].kind.Joined? && Of(calls, evs[m], i)
    ensures m < n && evs[m].kind.Joined? && Of(calls, evs[m], i)
    ensures forall k :: 0 <= k < m ==> !(evs[k].kind.Joined? && Of(calls, evs[k], i))
  {
    m :| 0 <= m < n && evs[m].kind.Joined? && Of(calls, evs[m], i);
    if exists k :: 0 <= k < m && evs[k].kind.Joined? && Of(calls, evs[k], i) {
      m := EarliestJoin(calls, evs, m, i);
    }
  }

  predicate Counts(ev: Event) {
    ev.kind.Joined? || ev.kind.Answered?
  }

  /** Only joins and answers are applied. */
  function DrainedAll(calls: map<string, nat>, order: seq<Call>, s: StepState, evs: seq<Event>, threshold: int)
    : (seq<Call>, StepState)
  {
    if evs == [] then (order, s)
    else
      var (o, s') := DrainedAll(calls, order, s, evs[..|evs| - 1], threshold);
      if Counts(evs[|evs| - 1]) then Heard(calls, o, s', evs[|evs| - 1], threshold) else (o, s')
  }

  /** An event that would end the step: no answer from a call that is there, or one that is there no more. */
  predicate Ends(calls: map<string, nat>, order: seq<Call>, ev: Event) {
    && !Counts(ev) && ev.room in calls && calls[ev.room] < |order|
    && order[calls[ev.room]].dispatched.Some? && !order[calls[ev.room]].gone
  }

  /** Calls may have gone and failures been counted, but not the other way round. */
  ghost predicate Worse(o: seq<Call>, s: StepState, o': seq<Call>, s': StepState) {
    && |o'| == |o| && s'.noAnswer >= s.noAnswer && s'.failed >= s.failed
    && (forall i :: 0 <= i < |o| ==> (o[i].gone ==> o'[i].gone) && o'[i].dispatched == o[i].dispatched)
  }

  /** None gone, none counted. */
  ghost predicate Unhurt(o: seq<Call>, s: StepState, o': seq<Call>, s': StepState) {
    && |o'| == |o| && s'.noAnswer == s.noAnswer && s'.failed == s.failed
    && (forall i :: 0 <= i < |o| ==> o'[i].gone == o[i].gone && o'[i].dispatched == o[i].dispatched)
  }

  lemma {:induction false} DrainingHurtsNone(calls: map<string, nat>, order: seq<Call>, s: StepState, evs: seq<Event>,
                                             threshold: int)
    ensures var (o, s') := DrainedAll(calls, order, s, evs, threshold); Unhurt(order, s, o, s')
  {
    if evs != [] {
      DrainingHurtsNone(calls, order, s, evs[..|evs| - 1], threshold);
    }
  }

  /** Once an event would have ended the step, hearing them all leaves a mark that draining does not. */
  ghost predicate Hurt(o: seq<Call>, s: StepState, o': seq<Call>, s': StepState) {
    && Worse(o, s, o', s')
    && (s'.noAnswer > s.noAnswer || s'.failed > s.failed || exists i :: 0 <= i < |o| && !o[i].gone && o'[i].gone)
  }

  lemma HeardHurts(calls: map<string, nat>, order: seq<Call>, s: StepState, o: seq<Call>, s': StepState, ev: Event,
                   threshold: int)
    requires Hurt(order, s, o, s')
    ensures var (o2, s2) := Heard(calls, o, s', ev, threshold); Hurt(order, s, o2, s2)
  {
    var (o2, s2) := Heard(calls, o, s', ev, threshold);
    assert Worse(o, s', o2, s2);
    if i :| 0 <= i < |order| && !order[i].gone && o[i].gone {
      assert o2[i].gone;
    }
  }

  lemma {:induction false} HearingHurtsIff(calls: map<string, nat>, order: seq<Call>, s: StepState, evs: seq<Event>,
                                           threshold: int)
    ensures
      var (o, s') := HeardAll(calls, order, s, evs, threshold);
      if exists ev :: ev in evs && Ends(calls, order, ev) then Hurt(order, s, o, s')
      else Unhurt(order, s, o, s') && (o, s') == DrainedAll(calls, order, s, evs, threshold)
  {
    if evs != [] {
      var before, ev := evs[..|evs| - 1], evs[|evs| - 1];
      assert evs == before + [ev];
      HearingHurtsIff(calls, order, s, before, threshold);
      var (o, s') := HeardAll(calls, order, s, before, threshold);
      if exists e :: e in before && Ends(calls, order, e) {
        HeardHurts(calls, order, s, o, s', ev, threshold);
      } else if Ends(calls, order, ev) {
        var i := calls[ev.room];
        assert !o[i].gone && o[i].dispatched.Some?;
        var (o2, s2) := Heard(calls, o, s', ev, threshold);
        assert ev in evs && (ev.kind.NoAnswer? || o2[i].gone);
      } else {
        HeardAnyway(calls, order, s, o, s', ev, threshold);
      }
    }
  }

  /** An event that ends nothing is a join, an answer, or of a call that is not there. */
  lemma HeardAnyway(calls: map<string, nat>, order: seq<Call>, s: StepState, o: seq<Call>, s': StepState, ev: Event,
                    threshold: int)
    requires Unhurt(order, s, o, s') && !Ends(calls, order, ev)
    ensures var (o2, s2) := Heard(calls, o, s', ev, threshold);
            Unhurt(order, s, o2, s2) && (!Counts(ev) ==> (o2, s2) == (o, s'))
  {
    if ev.room in calls && calls[ev.room] < |o| {
      var i := calls[ev.room];
      assert o[i := o[i]] == o;
    }
  }

  lemma HeardIs(runId: string, calls: map<string, nat>, log: seq<Act>, order: seq<Call>, s: StepState, ev: Event,
                threshold: int)
    requires Attending(runId, order, calls, log, s.step)
    ensures ev.room in calls ==>
              var (c, s', _) := Applied(order[calls[ev.room]], s, ev, threshold);
              Heard(calls, order, s, ev, threshold) == (order[calls[ev.room] := c], s')
    ensures ev.room !in calls ==> Heard(calls, order, s, ev, threshold) == (order, s)
    ensures Heard(calls, order, s, ev, threshold).1.cpu == s.cpu
  {
  }

  /** What waits is drained as hearing every event would leave it, if and only if none of it would have ended the
      step. */
  lemma DrainingHearsIff(calls: map<string, nat>, order: seq<Call>, s: StepState, evs: seq<Event>, threshold: int)
    ensures DrainedAll(calls, order, s, evs, threshold) == HeardAll(calls, order, s, evs, threshold)
            <==> forall ev :: ev in evs ==> !Ends(calls, order, ev)
  {
    HearingHurtsIff(calls, order, s, evs, threshold);
    DrainingHurtsNone(calls, order, s, evs, threshold);
  }

  /** The joins and answers among events. */
  function Countable(evs: seq<Event>): seq<Event> {
    if evs == [] then []
    else
      var before, ev := Countable(evs[..|evs| - 1]), evs[|evs| - 1];
      if ev.kind.Joined? || ev.kind.Answered? then before + [ev] else before
  }

  /** Draining events is hearing the joins and answers among them, of which none makes a call go. */
  lemma {:induction false} DrainingHearsTheCountable(calls: map<string, nat>, order: seq<Call>, s: StepState,
                                                     evs: seq<Event>, threshold: int)
    ensures DrainedAll(calls, order, s, evs, threshold) == HeardAll(calls, order, s, Countable(evs), threshold)
    ensures forall n :: 0 <= n < |Countable(evs)| ==>
                          (Present(calls, order, Countable(evs), n)
                           <==> var ev := Countable(evs)[n];
                                ev.room in calls && calls[ev.room] < |order|
                                && order[calls[ev.room]].dispatched.Some? && !order[calls[ev.room]].gone)
  {
    if evs != [] {
      var before, ev := evs[..|evs| - 1], evs[|evs| - 1];
      DrainingHearsTheCountable(calls, order, s, before, threshold);
      var counted := Countable(before);
      assert (counted + [ev])[..|counted|] == counted;
    }
    CountableGoesNowhere(evs);
  }

  lemma {:induction false} CountableGoesNowhere(evs: seq<Event>)
    ensures forall ev :: ev in Countable(evs) <==> ev in evs && (ev.kind.Joined? || ev.kind.Answered?)
  {
    if evs != [] {
      CountableGoesNowhere(evs[..|evs| - 1]);
      assert evs == evs[..|evs| - 1] + [evs[|evs| - 1]];
    }
  }

  /** The rule by which a step whose time is up passes. */
  predicate Passes(s: StepState, baseline: real) {
    && MedianOf(s.answers).Some? && !Busy(s.cpu)
    && (s.step == 1 || !Slower(MedianOf(s.answers).value, baseline))
  }

  /** A step of one call, which answered in a second and which the agent has left while its event waits: it
      passes, with the call counted as joined. */
  lemma LeftUnnoticedPasses(calls: map<string, nat>, order: seq<Call>, s: StepState, evs: seq<Event>, threshold: int,
                            baseline: real)
    requires order == [Call("room", 1, Some(0), Some(0), false, true)] && calls == map["room" := 0]
    requires s == StepState(1, 0, Running, [0], [1.0], 0, 0, 0, [])
    requires evs == [Event("room", Left, 0, 0.0)]
    ensures
      var (o, s') := DrainedAll(calls, order, s, evs, threshold);
      && Passes(s', baseline) && RowOf(s', o).joined == 1 && RowOf(s', o).failed == 0
    ensures
      var (o, s') := HeardAll(calls, order, s, evs, threshold);
      RowOf(s', o).joined == 0 && RowOf(s', o).failed == 1
  {
    assert evs[..0] == [] && !Counts(evs[0]) && order[..0] == [];
    assert DrainedAll(calls, order, s, evs, threshold) == (order, s);
    var gone := [order[0].(gone := true)];
    assert HeardAll(calls, order, s, evs[..0], threshold) == (order, s);
    assert order[0 := order[0].(gone := true)] == gone;
    assert HeardAll(calls, order, s, evs, threshold) == (gone, s.(failed := 1));
    assert gone[..0] == [] && Count(gone[..0], IsIn) == 0 && Count(order[..0], IsIn) == 0;
    var answers := s.answers;
    assert answers[1..] == [] && Sorted(answers[1..]) == [];
    assert Sorted(answers) == [1.0];
  }

  // ----- what a step hears -----

  function EventsOf(wakes: seq<Wake>): seq<Event> {
    if wakes == [] then []
    else EventsOf(wakes[..|wakes| - 1]) + if wakes[|wakes| - 1].Arrives? then [wakes[|wakes| - 1].event] else []
  }

  /** What a wake that ends a step ends it for. */
  predicate MaySay(wake: Wake, limit: Limit) {
    match wake
    case Cancelled => limit == RunnerLost
    case Arrives(ev) => EndsAs(ev.kind) == Some(limit)
    case Ticks(r) =>
      || (r.heartbeat.NotOurs? && limit == RunnerLost)
      || (r.heartbeat.StopAsked? && limit == Stopped)
      || (!r.heartbeat.NotOurs? && !r.heartbeat.StopAsked? && limit == Pending)
      || (!r.heartbeat.NotOurs? && !r.heartbeat.StopAsked? && limit == RealCall && r.busy == Some(true))
  }

  function HeardOf(calls: map<string, nat>, order: seq<Call>, s: StepState, wake: Wake, threshold: int)
    : (seq<Call>, StepState)
  {
    if wake.Arrives? then Heard(calls, order, s, wake.event, threshold) else (order, s)
  }

  /** The samples of the CPU are nothing to do with what is heard. */
  lemma HeardSampled(calls: map<string, nat>, order: seq<Call>, s: StepState, cpu: seq<real>, ev: Event,
                     threshold: int)
    ensures var (o, s') := Heard(calls, order, s, ev, threshold);
            Heard(calls, order, s.(cpu := cpu), ev, threshold) == (o, s'.(cpu := cpu))
  {
  }

  lemma {:induction false} DrainedSampled(calls: map<string, nat>, order: seq<Call>, s: StepState, cpu: seq<real>,
                                          evs: seq<Event>, threshold: int)
    ensures var (o, s') := DrainedAll(calls, order, s, evs, threshold);
            DrainedAll(calls, order, s.(cpu := cpu), evs, threshold) == (o, s'.(cpu := cpu))
  {
    if evs != [] {
      var before, ev := evs[..|evs| - 1], evs[|evs| - 1];
      DrainedSampled(calls, order, s, cpu, before, threshold);
      var (o, s') := DrainedAll(calls, order, s, before, threshold);
      HeardSampled(calls, o, s', cpu, ev, threshold);
    }
  }

  /** From where the first wakes led, the next one leads where all of them do. */
  lemma OneMoreWake(calls: map<string, nat>, order: seq<Call>, s: StepState, o: seq<Call>, s': StepState,
                    wakes: seq<Wake>, n: nat, threshold: int)
    requires n < |wakes|
    requires (o, s'.(cpu := s.cpu)) == HeardAll(calls, order, s, EventsOf(wakes[..n]), threshold)
    ensures var (o2, s2) := HeardOf(calls, o, s', wakes[n], threshold);
            (o2, s2.(cpu := s.cpu)) == HeardAll(calls, order, s, EventsOf(wakes[..n + 1]), threshold)
  {
    var evs := EventsOf(wakes[..n]);
    assert wakes[..n + 1][..n] == wakes[..n];
    if wakes[n].Arrives? {
      var ev := wakes[n].event;
      assert EventsOf(wakes[..n + 1]) == evs + [ev] && (evs + [ev])[..|evs|] == evs;
      HeardSampled(calls, o, s', s.cpu, ev, threshold);
    } else {
      assert EventsOf(wakes[..n + 1]) == evs;
    }
  }

  /** A wake was heard; a limit is what it said, and without one no call went for it. */
  ghost predicate Stirred(calls: map<string, nat>, order: seq<Call>, s: StepState, wake: Wake, limit: Option<Limit>,
                          o: seq<Call>, s': StepState, threshold: int)
  {
    && (limit.Some? ==> MaySay(wake, limit.value) && limit.value !in {AgentBusy, MaxReached, Plan, Tester})
    && (limit == None ==> Unhurt(order, s, o, s') && !wake.Cancelled?)
    && (o, s'.(cpu := s.cpu)) == HeardOf(calls, order, s, wake, threshold)
  }

  /** All these wakes were heard; if a limit ended the step the last one said so, and otherwise none did. */
  ghost predicate Waited(calls: map<string, nat>, order: seq<Call>, s: StepState, woken: seq<Wake>,
                         limit: Option<Limit>, o: seq<Call>, s': StepState, threshold: int)
  {
    && (limit == None ==> Unhurt(order, s, o, s'))
    && (limit.Some? ==> woken != [] && MaySay(woken[|woken| - 1], limit.value))
    && (o, s'.(cpu := s.cpu)) == HeardAll(calls, order, s, EventsOf(woken), threshold)
  }

  /** A step whose time is up heard all its wakes, and of what waited the joins and answers. */
  ghost predicate TimeUp(calls: map<string, nat>, order: seq<Call>, s: StepState, wakes: seq<Wake>,
                         waiting: seq<Event>, o: seq<Call>, s': StepState, threshold: int)
  {
    var (o1, s1) := HeardAll(calls, order, s, EventsOf(wakes), threshold);
    (o, s'.(cpu := s.cpu)) == DrainedAll(calls, o1, s1, waiting, threshold)
  }

  lemma OneMoreWaited(calls: map<string, nat>, order: seq<Call>, s: StepState, wakes: seq<Wake>, woken: nat,
                      o: seq<Call>, s1: StepState, limit: Option<Limit>, o2: seq<Call>, s2: StepState, threshold: int)
    requires woken < |wakes|
    requires Waited(calls, order, s, wakes[..woken], None, o, s1, threshold)
    requires Stirred(calls, o, s1, wakes[woken], limit, o2, s2, threshold)
    ensures Waited(calls, order, s, wakes[..woken + 1], limit, o2, s2, threshold)
  {
    OneMoreWake(calls, order, s, o, s1, wakes, woken, threshold);
  }

  lemma HeardUnhurt(calls: map<string, nat>, order: seq<Call>, s: StepState, ev: Event, threshold: int)
    requires ev.room in calls && calls[ev.room] < |order| && !order[calls[ev.room]].gone ==> EndsAs(ev.kind) == None
    ensures var (o, s') := Heard(calls, order, s, ev, threshold); Unhurt(order, s, o, s')
  {
  }

  // ----- the run -----

  /** A step is blamed as its last write says: on the agent if and only if that write failed the step, and
      on the tester only if it carries a mean CPU above the limit. */
  ghost predicate Blamed(ws: seq<Write>, limit: Limit, cloud: Option<bool>) {
    && (limit in {Pending, Plan, JobFailed, Answer} <==> ws != [] && ws[|ws| - 1].row.outcome.Failed?)
    && (limit.Tester? ==>
          && ws != [] && ws[|ws| - 1].row.outcome.Inconclusive?
          && ws[|ws| - 1].row.cpu.Some? && ws[|ws| - 1].row.cpu.value > 90.0)
    && (limit.Plan? ==> ws != [] && ws[|ws| - 1].row.joined == 5 && cloud == Some(true))
  }

  /** What a step of n calls comes to: it passed, or something ended the run. */
  ghost predicate CameTo(before: seq<Write>, after: seq<Write>, n: int, limit: Option<Limit>, cloud: Option<bool>) {
    match limit
    case None =>
      && PassedSteps(after) == PassedSteps(before) + [n]
      && after != [] && after[|after| - 1].row.outcome.Passed?
    case Some(l) =>
      && PassedSteps(after) == PassedSteps(before)
      && l !in {AgentBusy, MaxReached} && Blamed(after, l, cloud)
  }

  lemma WritingBlames(ws: seq<Write>, s: StepState, order: seq<Call>, said: Limit, cloud: Option<bool>)
    requires s.outcome.Failed? <==> said in {Pending, Plan, JobFailed, Answer}
    requires said.Tester? ==> s.outcome.Inconclusive? && Busy(s.cpu)
    requires said.Plan? ==> cloud == Some(true) && Count(order, IsIn) == PLAN_SESSIONS
    ensures Blamed(ws + [Write(RowOf(s, order), order)], said, cloud)
  {
  }

  method Tally(order: seq<Call>) returns (joined: nat, pending: nat)
    ensures joined == Count(order, IsIn)
    ensures pending == Count(order, IsWaiting)
  {
    joined, pending := 0, 0;
    for i := 0 to |order|
      invariant joined == Count(order[..i], IsIn)
      invariant pending == Count(order[..i], IsWaiting)
    {
      assert order[..i + 1][..i] == order[..i];
      if order[i].gone {
      } else if order[i].joined.Some? {
        joined := joined + 1;
      } else {
        pending := pending + 1;
      }
    }
    assert order[..|order|] == order;
  }

  class Test {
    const runId: string
    const maxStep: int
    const busyEvery: int
    var threshold: int
    var cloud: Option<bool>
    var baseline: real
    var capacity: Option<int>
    var calls: map<string, nat>
    var order: seq<Call>
    var s: StepState
    var writes: seq<Write>
    var log: seq<Act>

    constructor (runId: string, maxStep: int, busyEvery: int)
      ensures this.runId == runId && this.maxStep == maxStep && Untouched()
    {
      this.runId, this.maxStep, this.busyEvery := runId, maxStep, busyEvery;
      capacity, calls, order, writes, log := None, map[], [], [], [];
    }

    ghost predicate Untouched() reads this {
      capacity == None && calls == map[] && order == [] && writes == [] && log == []
    }

    /** Every call has its own room, and whatever was asked of LiveKit was for one of them. */
    ghost predicate Placed()
      reads `order, `calls, `log
    {
      InPlace(runId, order, calls) && Tracked(log, order, calls)
    }

    /** The writes climb, and the run remembers where they got to. */
    ghost predicate OnRecord()
      reads `writes, `threshold, `capacity, `baseline
    {
      Climbed(writes, threshold) && Remembered(writes, capacity, baseline)
    }

    /** Between steps every call was dispatched, in a step below the next one. */
    ghost predicate Below(next: int)
      reads `order
    {
      && AllDispatched(order) && |order| < next
      && (forall i :: 0 <= i < |order| ==> order[i].step < next)
    }

    ghost predicate Attended(n: int)
      reads `order, `calls, `log
    {
      Attending(runId, order, calls, log, n)
    }

    ghost predicate InBalance()
      reads `order, `s, `threshold
    {
      s.outcome.Running? && Balanced(s, order, threshold)
    }

    /** Writes the step that runs as it stands. */
    method Put()
      modifies `writes
      ensures writes == old(writes) + [Write(RowOf(s, order), order)]
    {
      var joined, pending := Tally(order);
      var cpu := None;
      if s.cpu != [] {
        var m := Mean(s.cpu);
        cpu := Some(m);
      }
      var row := Row(s.step, s.outcome, |order|, joined, pending, s.failed, s.late, s.noAnswer, s.joinSeconds,
                     s.answers, cpu);
      writes := writes + [Write(row, order)];
    }

    /** A write of a step that has not passed. */
    method Report()
      requires OnRecord() && Balanced(s, order, threshold)
      requires !s.outcome.Passed? && (s.outcome.Failed? ==> !Busy(s.cpu))
      modifies `writes
      ensures OnRecord() && PassedSteps(writes) == PassedSteps(old(writes))
      ensures writes == old(writes) + [Write(RowOf(s, order), order)]
    {
      WritingKeeps(writes, s, order, threshold, capacity, baseline);
      Put();
    }

    method JoinedCount() returns (n: nat)
      ensures n == Count(order, IsIn)
    {
      n := 0;
      for i := 0 to |order|
        invariant n == Count(order[..i], IsIn)
      {
        assert order[..i + 1][..i] == order[..i];
        if order[i].joined.Some? && !order[i].gone {
          n := n + 1;
        }
      }
      assert order[..|order|] == order;
    }

    /** How a step that limit stops is recorded, and how the run reports it. */
    method Verdict(limit: Limit) returns (said: Limit, outcome: Outcome)
      requires limit !in {AgentBusy, MaxReached, Plan}
      requires limit.Tester? ==> Busy(s.cpu)
      ensures outcome.Failed? <==> AgentRule(limit) && !Busy(s.cpu)
      ensures outcome.Failed? <==> said in {Pending, Plan, JobFailed, Answer}
      ensures outcome.Failed? || outcome.Inconclusive?
      ensures said.Tester? <==> Busy(s.cpu) && (AgentRule(limit) || limit.Tester?)
      ensures said.Plan? <==>
                && limit.Pending? && !Busy(s.cpu) && cloud == Some(true)
                && Count(order, IsIn) == 5
      ensures said == limit || said.Tester? || said.Plan?
    {
      said, outcome := limit, Inconclusive;
      if (AgentRule(limit) || limit.Tester?) && Busy(s.cpu) {
        said := Tester;
      } else if AgentRule(limit) {
        outcome := Failed;
        if limit.Pending? && cloud == Some(true) {
          var n := JoinedCount();
          if n == PLAN_SESSIONS {
            said := Plan;
          }
        }
      }
    }

    /** Ends the step that runs, for limit; said is how the run reports it. */
    method Finish(limit: Limit) returns (said: Limit)
      requires OnRecord() && InBalance()
      requires limit !in {AgentBusy, MaxReached, Plan}
      requires limit.Tester? ==> Busy(s.cpu)
      modifies `s, `writes
      ensures OnRecord() && PassedSteps(writes) == PassedSteps(old(writes))
      ensures s == old(s).(outcome := s.outcome)
      ensures writes == old(writes) + [Write(RowOf(s, order), order)]
      ensures Blamed(writes, said, cloud)
      ensures said == limit || said.Tester? || said.Plan?
      ensures said.Plan? ==> limit.Pending?
      ensures AgentRule(limit) && Busy(s.cpu) ==> said.Tester?
    {
      var outcome;
      said, outcome := Verdict(limit);
      s := s.(outcome := outcome);
      WritingBlames(writes, s, order, said, cloud);
      Report();
    }

    /** Applies an event of the i-th call. */
    method Apply(i: nat, ev: Event) returns (limit: Option<Limit>)
      requires i < |order| && order[i].dispatched.Some?
      modifies `order, `s
      ensures var (c, s', l) := Applied(old(order)[i], old(s), ev, threshold);
              order == old(order)[i := c] && s == s' && limit == l
    {
      limit := None;
      var c := order[i];
      if c.gone {
        assert order[i := c] == order;
        return;
      }
      match ev.kind {
        case Joined =>
          if c.joined.None? {
            c := c.(joined := Some(ev.at));
            if c.step == s.step {
              var wait := ev.at - c.dispatched.value;
              s := s.(joinSeconds := s.joinSeconds + [wait]);
              if threshold > 0 && wait > threshold {
                s := s.(late := s.late + 1);
              }
            }
          }
        case Answered =>
          if ev.at >= s.startedAt {
            s := s.(answers := s.answers + [ev.seconds]);
          }
        case NoAnswer =>
          s := s.(noAnswer := s.noAnswer + 1);
          limit := Some(Answer);
        case Left =>
          c := c.(gone := true);
          s := s.(failed := s.failed + 1);
          limit := Some(JobFailed);
        case Lost =>
          c := c.(gone := true);
          limit := Some(RunFailed);
      }
      order := order[i := c];
    }

    /** Applies one event; an event of a room that is no call's changes nothing. */
    method On(ev: Event) returns (limit: Option<Limit>)
      requires Attended(s.step) && InBalance()
      modifies `order, `s
      ensures Attended(old(s.step)) && InBalance() && s.step == old(s.step)
      ensures (order, s) == Heard(calls, old(order), old(s), ev, threshold)
      ensures limit == if ev.room in calls && !old(order)[calls[ev.room]].gone then EndsAs(ev.kind) else None
    {
      limit := None;
      HeardIs(runId, calls, log, order, s, ev, threshold);
      if ev.room in calls {
        var i := calls[ev.room];
        ghost var (c, s', l) := Applied(order[i], s, ev, threshold);
        AppliedKeeps(runId, order, calls, log, i, s, ev, threshold, c, s', l);
        limit := Apply(i, ev);
      }
    }

    /** Applies the joins and answers that wait when the step's timer fires, and drops the rest. */
    method Drain(waiting: seq<Event>)
      requires Attended(s.step) && InBalance()
      modifies `order, `s
      ensures Attended(old(s.step)) && InBalance() && s.step == old(s.step) && s.cpu == old(s.cpu)
      ensures (order, s) == DrainedAll(calls, old(order), old(s), waiting, threshold)
    {
      for i := 0 to |waiting|
        invariant Attended(old(s.step)) && InBalance() && s.step == old(s.step) && s.cpu == old(s.cpu)
        invariant (order, s) == DrainedAll(calls, old(order), old(s), waiting[..i], threshold)
      {
        assert waiting[..i + 1][..i] == waiting[..i];
        var ev := waiting[i];
        if ev.kind.Joined? || ev.kind.Answered? {
          HeardIs(runId, calls, log, order, s, ev, threshold);
          var _ := On(ev);
        }
      }
      assert waiting[..|waiting|] == waiting;
    }

    /** Heartbeats the run, samples the CPU and looks for a stop, a job nobody took and a real call. */
    method Beat(r: Reading, lastBusy: int) returns (limit: Option<Limit>, checked: int)
      modifies `s
      ensures limit == Some(RunnerLost) <==> r.heartbeat.NotOurs?
      ensures limit == Some(Stopped) <==> r.heartbeat.StopAsked?
      ensures limit == Some(Pending) <==>
                && !r.heartbeat.NotOurs? && !r.heartbeat.StopAsked?
                && exists c :: && c in order && c.joined.None? && c.dispatched.Some?
                               && r.now - c.dispatched.value >= 10_000_000_000
      ensures limit == Some(RealCall) <==>
                && !r.heartbeat.NotOurs? && !r.heartbeat.StopAsked? && (forall c :: c in order ==> !Stuck(c, r.now))
                && r.now - lastBusy >= busyEvery && r.busy == Some(true)
      ensures limit.Some? ==> limit.value in {RunnerLost, Stopped, Pending, RealCall}
      ensures s == if r.percent.None? || r.heartbeat.NotOurs? || r.heartbeat.StopAsked? then old(s)
                   else old(s).(cpu := old(s).cpu + [r.percent.value])
      ensures limit == None ==> checked == if r.now - lastBusy >= busyEvery then r.now else lastBusy
    {
      limit, checked := None, lastBusy;
      if r.heartbeat.NotOurs? { return Some(RunnerLost), checked; }
      if r.heartbeat.StopAsked? { return Some(Stopped), checked; }
      if r.percent.Some? {
        s := s.(cpu := s.cpu + [r.percent.value]);
      }
      for i := 0 to |order|
        invariant forall j :: 0 <= j < i ==> !Stuck(order[j], r.now)
      {
        if Stuck(order[i], r.now) { return Some(Pending), checked; }
      }
      if r.now - lastBusy >= busyEvery {
        checked := r.now;
        if r.busy == Some(true) { limit := Some(RealCall); }
      }
    }

    /** Whether a step passes once its time is over: it does if and only if the agent answered, half of the
        answers no slower than one and a half times the first step's, and the tester itself kept up. */
    method Judge() returns (limit: Option<Limit>)
      modifies `baseline
      ensures limit == None <==> Passes(s, old(baseline))
      ensures limit.Some? ==> limit.value in {Answer, Tester}
      ensures limit == Some(Tester) ==> Busy(s.cpu)
      ensures limit == None ==> OnPace(s, baseline) && !Busy(s.cpu)
      ensures s.step != 1 ==> baseline == old(baseline)
      ensures s.step == 1 && limit == None ==> MedianOf(s.answers) == Some(baseline)
    {
      limit := None;
      var median := Median(s.answers);
      if median.None? {
        return Some(Answer);
      }
      if s.step == 1 {
        baseline := median.value;
      } else if Slower(median.value, baseline) {
        return Some(Answer);
      }
      if Busy(s.cpu) {
        limit := Some(Tester);
      }
    }

    method Pass()
      requires OnRecord() && InBalance() && !Busy(s.cpu)
      requires s.step == Pow2(|PassedSteps(writes)|)
      requires OnPace(s, baseline)
      modifies `s, `writes, `capacity
      ensures OnRecord() && PassedSteps(writes) == PassedSteps(old(writes)) + [old(s.step)]
      ensures writes == old(writes) + [Write(RowOf(s, order), order)] && s == old(s).(outcome := Passed)
    {
      s := s.(outcome := Passed);
      PassingKeeps(writes, s, order, threshold, capacity, baseline);
      Put();
      capacity := Some(s.step);
    }

    /** Ends a step whose time is over. */
    method Close() returns (limit: Option<Limit>)
      requires InBalance() && OnRecord() && s.step == Pow2(|PassedSteps(writes)|)
      modifies `s, `writes, `capacity, `baseline
      ensures OnRecord()
      ensures limit == None <==> Passes(old(s), old(baseline))
      ensures PassedSteps(writes) == PassedSteps(old(writes)) + if limit == None then [old(s.step)] else []
      ensures limit == None || (limit.value in {Answer, Tester} && Blamed(writes, limit.value, cloud))
      ensures limit == None ==> writes != [] && writes[|writes| - 1].row.outcome.Passed?
    {
      FirstRung(|PassedSteps(writes)|);
      limit := Judge();
      if limit.None? {
        Pass();
      } else {
        var said := Finish(limit.value);
        limit := Some(said);
      }
    }

    // ----- connecting calls -----

    /** Gives the step its calls: a room name each, in order, none of them asked for yet. */
    method Grow(n: int)
      requires Placed()
      modifies `order, `calls
      ensures Placed()
      ensures |order| == if n > |old(order)| then n else |old(order)|
      ensures order[..|old(order)|] == old(order)
      ensures forall i :: |old(order)| <= i < |order| ==>
                            order[i] == Call(RoomName(runId, i + 1), n, None, None, false, false)
    {
      while |order| < n
        invariant Placed()
        invariant |old(order)| <= |order| && (|order| <= n || order == old(order))
        invariant order[..|old(order)|] == old(order)
        invariant forall i :: |old(order)| <= i < |order| ==>
                                order[i] == Call(RoomName(runId, i + 1), n, None, None, false, false)
      {
        var c := Call(RoomName(runId, |order| + 1), n, None, None, false, false);
        OneMoreInPlace(runId, order, calls, log, c);
        calls := calls[c.room := |order|];
        order := order + [c];
      }
    }

    /** Connects one call: its room, its caller and then its job. Only a job LiveKit would not take, for
        a caller already waiting, is held against the agent. */
    method Connect(c: Call) returns (now: Call, failed: Option<Limit>)
      requires !c.connected && c.dispatched.None?
      modifies `log
      ensures SameCall(c, now)
      ensures log == old(log) + ActsFor(now)
      ensures now.connected <==> failed != Some(RunFailed)
      ensures now.dispatched.Some? <==> failed == None
      ensures failed in {None, Some(RunFailed), Some(JobFailed)}
    {
      now := c;
      log := log + [Create(c.room)];
      if * { return now, Some(RunFailed); }
      if * { return now, Some(RunFailed); }
      now := now.(connected := true);
      log := log + [Act.Connect(c.room)];
      log := log + [Dispatch(c.room)];
      if * { return now, Some(JobFailed); }
      var at: int := *;
      now := now.(dispatched := Some(at));
      failed := None;
    }

    /** Connects the ith call. */
    method ConnectNext(i: nat) returns (failed: Option<Limit>)
      requires i < |order| && Placed() && !order[i].connected && order[i].dispatched.None?
      modifies `order, `log
      ensures Placed() && order == old(order)[i := order[i]] && SameCall(old(order)[i], order[i])
      ensures log == old(log) + ActsFor(order[i])
      ensures order[i].dispatched.Some? <==> failed == None
      ensures failed in {None, Some(RunFailed), Some(JobFailed)}
    {
      var c;
      c, failed := Connect(order[i]);
      ConnectingKeeps(runId, order, calls, old(log), i, c);
      order := order[i := c];
    }

    /** Connects the calls from the first on, all of them whatever becomes of each; the first that failed is
        the one that counts. */
    method ConnectFrom(first: nat) returns (failed: Option<Limit>)
      requires first <= |order| && Placed()
      requires forall i :: 0 <= i < first ==> order[i].dispatched.Some?
      requires forall i :: first <= i < |order| ==> !order[i].connected && order[i].dispatched.None?
      modifies `order, `log
      ensures Placed() && |order| == |old(order)|
      ensures forall i :: 0 <= i < |order| ==> SameCall(old(order)[i], order[i])
      ensures forall i :: first <= i < |order| ==> Create(order[i].room) in log
      ensures failed == None ==> AllDispatched(order)
      ensures failed.Some? ==> failed.value in {RunFailed, JobFailed}
    {
      failed := None;
      for i := first to |order|
        invariant Placed() && |order| == |old(order)|
        invariant forall j :: 0 <= j < |order| ==> SameCall(old(order)[j], order[j])
        invariant forall j :: i <= j < |order| ==> order[j] == old(order)[j]
        invariant forall j :: first <= j < i ==> Create(order[j].room) in log
        invariant failed == None ==> forall j :: 0 <= j < i ==> order[j].dispatched.Some?
        invariant failed.Some? ==> failed.value in {RunFailed, JobFailed}
      {
        var e := ConnectNext(i);
        failed := if failed == None then e else failed;
      }
    }

    /** Brings the calls up to n. Someone who stops the run meanwhile is heard before a call that failed. */
    method Add(n: int) returns (limit: Option<Limit>)
      requires Placed() && Below(n) && InBalance()
      modifies `order, `calls, `log
      ensures Placed() && InBalance()
      ensures |order| == n >= |old(order)|
      ensures forall i :: |old(order)| <= i < n ==> Create(order[i].room) in log
      ensures limit.Some? || Attended(n)
      ensures limit.Some? ==> limit.value in {RunFailed, JobFailed, RunnerLost, Stopped}
    {
      ghost var before := order;
      var first := |order|;
      Grow(n);
      assert forall i :: 0 <= i < first ==> order[i] == order[..first][i];
      ghost var grown := order;
      limit := ConnectFrom(first);
      SameCallsJoinAlike(before, grown, order);
      AddingKeepsBalance(before, order, s, threshold);
      if * {
        limit := Some(RunnerLost);
      } else if * {
        limit := Some(Stopped);
      }
    }

    // ----- the ladder -----

    /** A heartbeat, and the write that follows it when nothing ends the step. */
    method Pulse(r: Reading, lastBusy: int) returns (limit: Option<Limit>, checked: int)
      requires InBalance() && OnRecord()
      modifies `s, `writes
      ensures InBalance() && OnRecord()
      ensures s == old(s).(cpu := s.cpu) && PassedSteps(writes) == PassedSteps(old(writes))
      ensures Stirred(calls, order, old(s), Ticks(r), limit, order, s, threshold)
      ensures writes == if limit == None then old(writes) + [Write(RowOf(s, order), order)] else old(writes)
    {
      limit, checked := Beat(r, lastBusy);
      if limit == None {
        Report();
      }
    }

    /** One event that arrives while a step waits. */
    method Hear(ev: Event) returns (limit: Option<Limit>)
      requires Attended(s.step) && InBalance()
      modifies `order, `s
      ensures Attended(old(s.step)) && InBalance() && s.step == old(s.step)
      ensures Stirred(calls, old(order), old(s), Arrives(ev), limit, order, s, threshold)
    {
      limit := On(ev);
      if limit == None {
        HeardUnhurt(calls, old(order), old(s), ev, threshold);
      }
    }

    /** What one wake of a step does; a limit is what now ends it. */
    method Stir(wake: Wake, lastBusy: int) returns (limit: Option<Limit>, checked: int)
      requires Attended(s.step) && InBalance() && OnRecord()
      modifies `order, `s, `writes
      ensures Attended(old(s.step)) && InBalance() && OnRecord()
      ensures s.step == old(s.step) && PassedSteps(writes) == PassedSteps(old(writes))
      ensures Stirred(calls, old(order), old(s), wake, limit, order, s, threshold)
    {
      checked := lastBusy;
      match wake
      case Cancelled => limit := Some(RunnerLost);
      case Ticks(r) => limit, checked := Pulse(r, lastBusy);
      case Arrives(ev) =>
        limit := Hear(ev);
    }

    /** Wakes as often as told, until something ends the step or its timer fires: every event up to then is heard. */
    method Wait(wakes: seq<Wake>) returns (limit: Option<Limit>, woken: nat)
      requires Attended(s.step) && InBalance() && OnRecord()
      modifies `order, `s, `writes
      ensures Attended(old(s.step)) && InBalance() && OnRecord()
      ensures s.step == old(s.step) && PassedSteps(writes) == PassedSteps(old(writes))
      ensures limit.Some? ==> limit.value !in {AgentBusy, MaxReached, Plan, Tester}
      ensures woken <= |wakes| && (limit == None ==> woken == |wakes|)
      ensures Waited(calls, old(order), old(s), wakes[..woken], limit, order, s, threshold)
    {
      var lastBusy: int := *;
      limit, woken := None, 0;
      while woken < |wakes| && limit == None
        invariant Attended(old(s.step)) && InBalance() && OnRecord()
        invariant s.step == old(s.step) && PassedSteps(writes) == PassedSteps(old(writes))
        invariant limit.Some? ==> limit.value !in {AgentBusy, MaxReached, Plan, Tester}
        invariant woken <= |wakes|
        invariant Waited(calls, old(order), old(s), wakes[..woken], limit, order, s, threshold)
      {
        ghost var o, s1 := order, s;
        limit, lastBusy := Stir(wakes[woken], lastBusy);
        OneMoreWaited(calls, old(order), old(s), wakes, woken, o, s1, limit, order, s, threshold);
        woken := woken + 1;
      }
    }

    /** Watches a step whose calls are connected; when its time is up, the last answers still count. */
    method Watch(wakes: seq<Wake>, waiting: seq<Event>) returns (limit: Option<Limit>, woken: nat)
      requires Attended(s.step) && InBalance() && OnRecord()
      modifies `order, `s, `writes
      ensures Attended(old(s.step)) && InBalance() && OnRecord()
      ensures s.step == old(s.step) && PassedSteps(writes) == PassedSteps(old(writes))
      ensures limit.Some? ==> limit.value !in {AgentBusy, MaxReached, Plan, Tester}
      ensures woken <= |wakes|
      ensures limit == None || Waited(calls, old(order), old(s), wakes[..woken], limit, order, s, threshold)
      ensures limit.Some? || TimeUp(calls, old(order), old(s), wakes, waiting, order, s, threshold)
    {
      Report();
      limit, woken := Wait(wakes);
      if limit == None {
        ghost var o, s1 := order, s;
        Drain(waiting);
        DrainedSampled(calls, o, s1, old(s).cpu, waiting, threshold);
        assert wakes[..woken] == wakes;
      }
    }

    /** Ends a step, for the limit that stopped it or because its time was up. */
    method Settle(limit: Option<Limit>) returns (said: Option<Limit>)
      requires InBalance() && OnRecord() && s.step == Pow2(|PassedSteps(writes)|)
      requires limit.Some? ==> limit.value !in {AgentBusy, MaxReached, Plan, Tester}
      modifies `s, `writes, `capacity, `baseline
      ensures OnRecord() && CameTo(old(writes), writes, old(s.step), said, cloud)
      ensures limit.Some? ==> said.Some?
    {
      if limit.Some? {
        var l := Finish(limit.value);
        said := Some(l);
      } else {
        said := Close();
      }
    }

    method Begin(n: int)
      requires OnRecord() && Below(n)
      modifies `s, `writes
      ensures InBalance() && OnRecord() && s.step == n && PassedSteps(writes) == PassedSteps(old(writes))
    {
      var start: int := *;
      s := StepState(n, start, Running, [], [], 0, 0, 0, []);
      NoneOfStep(order, n);
      Report();
    }

    /** One step of the ramp, up to n calls at once. */
    method Step(n: int) returns (limit: Option<Limit>)
      requires Placed() && OnRecord() && Below(n) && n == Pow2(|PassedSteps(writes)|)
      modifies `order, `calls, `log, `s, `writes, `capacity, `baseline
      ensures OnRecord()
      ensures if limit == None then Attended(n) else Placed()
      ensures CameTo(old(writes), writes, n, limit, cloud)
    {
      Begin(n);
      limit := Add(n);
      if limit == None {
        var wakes: seq<Wake>, waiting: seq<Event> := *, *;
        var woken;
        limit, woken := Watch(wakes, waiting);
      }
      limit := Settle(limit);
    }

    /** Ramps the calls up until a step ends the run or the ladder does. */
    method Climb() returns (end: End)
      requires Placed() && OnRecord() && order == [] && writes == []
      modifies `order, `calls, `log, `s, `writes, `capacity, `baseline
      ensures Placed() && OnRecord()
      ensures end.capacity == capacity
      ensures end.limitedBy.MaxReached? ==> IsLadder(PassedSteps(writes), maxStep)
      ensures Blamed(writes, end.limitedBy, cloud) && !end.limitedBy.AgentBusy?
    {
      var ladder := Ladder(maxStep);
      for i := 0 to |ladder|
        invariant Placed() && OnRecord() && Below(Pow2(i))
        invariant PassedSteps(writes) == ladder[..i]
        invariant writes != [] ==> writes[|writes| - 1].row.outcome.Passed?
      {
        LadderAt(ladder, maxStep, i);
        var limit := Step(ladder[i]);
        if limit.Some? { return End(limit.value, capacity); }
      }
      assert ladder[..|ladder|] == ladder;
      end := End(MaxReached, capacity);
    }

    /** The run until it ends, its rooms still there. */
    method Run() returns (end: End)
      requires Untouched()
      modifies this
      ensures Placed() && OnRecord()
      ensures end.capacity == LastPassed(writes)
      ensures end.limitedBy.MaxReached? ==> IsLadder(PassedSteps(writes), maxStep)
      ensures Blamed(writes, end.limitedBy, cloud)
      ensures end.limitedBy.AgentBusy? ==> log == [] && writes == []
    {
      if * { return End(RunFailed, None); }
      threshold := *;
      if * { return End(RunFailed, None); }
      if * { return End(AgentBusy, None); }
      cloud := *;
      if * { return End(RunFailed, None); }
      end := Climb();
    }

    /** However the run ended, no caller stays on the line and no room is left. */
    method Cleanup()
      modifies `log
      ensures log == old(log) + Cleaning(order)
    {
      for i := 0 to |order|
        invariant log == old(log) + Cleaning(order[..i])
      {
        assert order[..i + 1][..i] == order[..i];
        if order[i].connected {
          log := log + [Hangup(order[i].room)];
        }
        log := log + [Delete(order[i].room)];
      }
      assert order[..|order|] == order;
    }

    /** A whole run, however it ends. */
    method Do() returns (end: End)
      requires Untouched()
      modifies this
      ensures Measured(writes, threshold)
      ensures end.capacity == LastPassed(writes)
      ensures end.limitedBy.MaxReached? ==> IsLadder(PassedSteps(writes), maxStep)
      ensures end.limitedBy.MaxReached? && maxStep >= 1 ==>
                end.capacity.Some? && LargestPowerUpTo(end.capacity.value, maxStep)
      ensures Blamed(writes, end.limitedBy, cloud)
      ensures CleanedUp(log)
    {
      end := Run();
      ClimbIsMeasured(writes, threshold);
      if end.limitedBy.MaxReached? && maxStep >= 1 {
        var ladder := PassedSteps(writes);
        assert maxStep < Pow2(|ladder|) && Pow2(0) == 1;
        TopOfLadder(ladder, maxStep, ladder[|ladder| - 1]);
      }
      CleaningCleansUp(runId, log, order, calls);
      Cleanup();
    }

    /** What the worker records of a run it claimed, whose end do reports. If the worker is stopping by then, and
        the run ended for any other reason than that, it is recorded lost, its capacity dropped. A stop that a
        step noticed itself ends the run as lost with its capacity kept. */
    method Tick(stopping: bool) returns (ended: End, recorded: End)
      requires Untouched()
      modifies this
      ensures Measured(writes, threshold) && CleanedUp(log)
      ensures ended.capacity == LastPassed(writes) && Blamed(writes, ended.limitedBy, cloud)
      ensures recorded.limitedBy == if stopping then RunnerLost else ended.limitedBy
      ensures recorded.capacity != LastPassed(writes) <==>
                stopping && !ended.limitedBy.RunnerLost? && LastPassed(writes) != None
      ensures recorded.capacity in {None, LastPassed(writes)}
      ensures recorded.limitedBy.MaxReached? && maxStep >= 1 ==>
                recorded.capacity.Some? && LargestPowerUpTo(recorded.capacity.value, maxStep)
    {
      ended := Do();
      recorded := ended;
      if stopping && !ended.limitedBy.RunnerLost? {
        recorded := End(RunnerLost, None);
      }
    }
  }
}
