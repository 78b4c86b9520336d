/** The retry schedule of one alert delivery (internal/alert/deliverer.go, schedule and backoff).
    Times and durations are integers of nanoseconds. */
module AlertRetry {
  import opened Common

  const SECOND := 1_000_000_000
  const FIRST_RETRY := 30 * SECOND
  const MAX_RETRY := 30 * 60 * SECOND
  const RETRY_FOR := 24 * 60 * 60 * SECOND

  function Min(a: int, b: int): int { if a < b then a else b }

  function Max(a: int, b: int): int { if a > b then a else b }

  /** How long a delivery rests when n attempts have failed, in closed form: 30 s doubled n - 1 times, capped. */
  function Wait(n: nat): int {
    Min(FIRST_RETRY * Pow2(if n == 0 then 0 else n - 1), MAX_RETRY)
  }

  method Backoff(n: int) returns (wait: int)
    ensures wait == Wait(if n < 0 then 0 else n)
  {
    wait := FIRST_RETRY;
    var i := 1;
    while i < n && wait < MAX_RETRY
      invariant 1 <= i && (i <= n || i == 1)
      invariant wait == FIRST_RETRY * Pow2(i - 1)
    {
      wait := wait * 2;
      i := i + 1;
    }
    if i < n {
      Pow2Monotone(i - 1, n - 1);
    }
    wait := Min(wait, MAX_RETRY);
  }

  /** What one attempt came to; retryAfter is whatever the server's header said, of any sign or size. */
  datatype Outcome = Outcome(ok: bool, cancelled: bool, retry: bool, retryAfter: int)

  datatype State = Pending | Retrying | Delivered | Cancelled | Failed

  datatype Delivery = Delivery(createdAt: int, attempts: nat, state: State, nextAttemptAt: int)

  predicate Due(d: Delivery) {
    d.state.Pending? || d.state.Retrying?
  }

  /** The delivery's row once an attempt made at now is recorded. */
  function Recorded(d: Delivery, o: Outcome, now: int): Delivery {
    if o.ok then Delivery(d.createdAt, d.attempts + 1, Delivered, now)
    else if o.cancelled then Delivery(d.createdAt, d.attempts + 1, Cancelled, now)
    else if o.retry && now - d.createdAt < RETRY_FOR then
      Delivery(d.createdAt, d.attempts + 1, Retrying, now + Max(Wait(d.attempts + 1), Min(o.retryAfter, RETRY_FOR)))
    else Delivery(d.createdAt, d.attempts + 1, Failed, now)
  }

  /** A delivery's life: attempt i, made at times[i], takes states[i] to states[i + 1]. Only a due
      delivery is attempted, and never before its planned time. */
  predicate Life(states: seq<Delivery>, outcomes: seq<Outcome>, times: seq<int>) {
    && |states| == |outcomes| + 1 && |times| == |outcomes|
    && states[0] == Delivery(states[0].createdAt, 0, Pending, states[0].createdAt)
    && forall i :: 0 <= i < |outcomes| ==>
         && Due(states[i]) && times[i] >= states[i].nextAttemptAt
         && states[i + 1] == Recorded(states[i], outcomes[i], times[i])
  }

  /** The waits after the first k attempts together. */
  function Waited(k: nat): int {
    if k == 0 then 0 else Waited(k - 1) + Wait(k)
  }

  /** The first six waits take 1890 s, every later one 1800 s. */
  lemma {:induction false} WaitedIs(j: nat)
    ensures Waited(6 + j) == (1890 + 1800 * j) * SECOND
  {
    if j == 0 {
      assert Pow2(1) == 2 && Pow2(2) == 4 && Pow2(3) == 8 && Pow2(4) == 16 && Pow2(5) == 32;
      assert Wait(1) == 30 * SECOND && Wait(2) == 60 * SECOND && Wait(3) == 120 * SECOND;
      assert Wait(4) == 240 * SECOND && Wait(5) == 480 * SECOND && Wait(6) == 960 * SECOND;
      assert Waited(3) == 210 * SECOND;
      assert Waited(5) == 930 * SECOND;
    } else {
      WaitedIs(j - 1);
      assert Pow2(6) == 64 by { assert Pow2(3) == 8; assert Pow2(5) == 32; }
      Pow2Monotone(6, 6 + j - 1);
      assert Wait(6 + j) == MAX_RETRY;
    }
  }

  lemma {:induction false} Paced(states: seq<Delivery>, outcomes: seq<Outcome>, times: seq<int>, k: nat)
    requires Life(states, outcomes, times) && k < |states|
    ensures states[k].attempts == k && states[k].createdAt == states[0].createdAt
    ensures Due(states[k]) ==> states[k].nextAttemptAt >= states[0].createdAt + Waited(k)
    ensures Due(states[k]) && k > 0 ==> times[k - 1] < states[0].createdAt + RETRY_FOR
    ensures Due(states[k]) ==> states[k].nextAttemptAt < states[0].createdAt + 2 * RETRY_FOR
  {
    if k > 0 {
      Paced(states, outcomes, times, k - 1);
    }
  }

  /** At most 54 attempts are ever recorded, and none is planned at or after 48 h past creation. */
  lemma AttemptsAreBounded(states: seq<Delivery>, outcomes: seq<Outcome>, times: seq<int>, k: nat)
    requires Life(states, outcomes, times) && k < |states|
    ensures states[k].attempts <= 54
    ensures Due(states[k]) ==> states[k].nextAttemptAt < states[0].createdAt + 2 * RETRY_FOR
  {
    Paced(states, outcomes, times, k);
    if k > 54 {
      Paced(states, outcomes, times, 53);
      Paced(states, outcomes, times, 54);
      WaitedIs(47);
      assert false;
    }
  }

  const REFUSED_FOR_NOW := Outcome(false, false, true, 0)

  /** A channel that always asks for a retry, attempted as soon as each is due, from time 0 on. */
  function Stubborn(k: nat): Delivery {
    if k == 54 then Delivery(0, k, Failed, Waited(k - 1))
    else Delivery(0, k, if k == 0 then Pending else Retrying, Waited(k))
  }

  lemma {:induction false} WaitedGrows(a: nat, b: nat)
    requires a <= b
    ensures Waited(a) <= Waited(b)
    decreases b
  {
    if a < b {
      WaitedGrows(a, b - 1);
    }
  }

  lemma WithinADay(k: nat)
    requires k <= 52
    ensures Waited(k) < RETRY_FOR
  {
    var last: nat := 52;
    WaitedIs(last - 6);
    WaitedGrows(k, last);
  }

  lemma StubbornStep(k: nat)
    requires k < 54
    ensures Due(Stubborn(k)) && Stubborn(k + 1) == Recorded(Stubborn(k), REFUSED_FOR_NOW, Waited(k))
  {
    if k < 53 {
      WithinADay(k);
      assert Wait(k + 1) >= 0;
    } else {
      WaitedIs(k - 6);
    }
  }

  lemma StubbornLife(n: nat) returns (states: seq<Delivery>, outcomes: seq<Outcome>, times: seq<int>)
    requires n == 54
    ensures Life(states, outcomes, times) && |outcomes| == n && states[n] == Stubborn(n)
  {
    states := seq(n + 1, k requires 0 <= k => Stubborn(k));
    outcomes := seq(n, k => REFUSED_FOR_NOW);
    times := seq(n, k requires 0 <= k => Waited(k));
    forall i | 0 <= i < n
      ensures Due(states[i]) && times[i] >= states[i].nextAttemptAt
      ensures states[i + 1] == Recorded(states[i], outcomes[i], times[i])
    {
      StubbornStep(i);
    }
    assert Life(states, outcomes, times);
  }

  /** The bound is met: a channel that answers 503 to every attempt is attempted 54 times. */
  lemma FiftyFourIsReached()
    ensures exists states: seq<Delivery>, outcomes: seq<Outcome>, times: seq<int> ::
              Life(states, outcomes, times) && states[|outcomes|].attempts == 54 && states[|outcomes|].state.Failed?
  {
    var states, outcomes, times := StubbornLife(54);
  }

  /** So is the other: any time in the second day can be planned for, by a server that names it as late as the
      first day allows. */
  lemma AnyTimeOfTheSecondDayIsPlanned(at: int)
    requires RETRY_FOR <= at < 2 * RETRY_FOR
    ensures exists states: seq<Delivery>, outcomes: seq<Outcome>, times: seq<int> ::
              Life(states, outcomes, times) && states[0].createdAt == 0
              && states[|outcomes|].state.Retrying? && states[|outcomes|].nextAttemptAt == at
  {
    var made, late, named := Delivery(0, 0, Pending, 0), at - RETRY_FOR, Outcome(false, false, true, RETRY_FOR);
    assert Wait(1) <= MAX_RETRY;
    var states, outcomes, times := [made, Recorded(made, named, late)], [named], [late];
    assert Life(states, outcomes, times);
    assert states[|outcomes|].nextAttemptAt == at;
  }

  /** What an attempt comes to. A delivery that went through, or whose channel is gone, ends so; one that asks for a
      retry within a day of its creation gets one, later by its wait or by what the server asked for up to a day,
      whichever is longer; any other has failed. */
  lemma AttemptsEndAsTheyShould(states: seq<Delivery>, outcomes: seq<Outcome>, times: seq<int>, i: nat)
    requires Life(states, outcomes, times) && i < |outcomes|
    ensures var o, d, now := outcomes[i], states[i + 1], times[i];
            && now >= states[i].nextAttemptAt && d.attempts == i + 1
            && (d.state.Delivered? <==> o.ok)
            && (d.state.Cancelled? <==> !o.ok && o.cancelled)
            && (d.state.Retrying? <==>
                  !o.ok && !o.cancelled && o.retry && now - states[0].createdAt < 86_400_000_000_000)
            && (d.state.Failed? <==> !d.state.Delivered? && !d.state.Cancelled? && !d.state.Retrying?)
            && (d.state.Retrying? ==>
                  var asked := if o.retryAfter < 86_400_000_000_000 then o.retryAfter else 86_400_000_000_000;
                  && d.nextAttemptAt >= now + Wait(i + 1) && d.nextAttemptAt >= now + asked
                  && (d.nextAttemptAt == now + Wait(i + 1) || d.nextAttemptAt == now + asked))
  {
    Paced(states, outcomes, times, i);
  }

  /** The waits: half a minute, then twice the one before, up to half an hour. */
  lemma WaitsDouble(n: nat)
    ensures Wait(1) == 30_000_000_000
    ensures n >= 1 ==> Wait(n + 1) == if 2 * Wait(n) < 1_800_000_000_000 then 2 * Wait(n) else 1_800_000_000_000
  {
    if n >= 1 {
      assert Pow2(n) == 2 * Pow2(n - 1);
    }
  }
}
