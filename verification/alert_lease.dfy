/** One alert delivery and any number of deliverer ticks, on one clock (internal/alert/deliverer.go,
    Tick; internal/app/roles.go, everyWithin). A tick runs inside a budget from its start; the time it
    is handed may lag its start, because a ticker keeps a tick its reader was too busy to take. The
    tick's other deliveries only take time here. Times are integers of nanoseconds. */
module AlertLease {
  import opened Common

  const SECOND := 1_000_000_000
  const LEASE := 120 * SECOND
  const SEND_TIMEOUT := 10 * SECOND
  const FINISH_TIMEOUT := 5 * SECOND
  const CLAIM_BATCH := 5
  const TICK_BUDGET := CLAIM_BATCH * (SEND_TIMEOUT + FINISH_TIMEOUT)

  /** How the ticks behave: the time handed to one is at most lag behind its start, and a send may outlive
      its tick's budget by at most overrun (0 when every client honours the tick's context, one send's
      own timeout when none does). */
  datatype Limits = Limits(lag: int, overrun: int) {
    predicate Valid() {
      0 <= lag && 0 <= overrun <= SEND_TIMEOUT
    }
  }

  /** The delivery's row: due while it is pending or retrying. */
  datatype Row = Row(due: bool, nextAttemptAt: int, leaseUntil: Option<int>)

  /** One tick: begun with the time it was handed; holding the delivery among those it claimed; sending and
      recording it since a time; or done with it. */
  datatype Tick =
    | Begun(start: int, handed: int)
    | Holding(start: int)
    | Sending(start: int, since: int)
    | Over

  datatype System = System(now: int, row: Row, ticks: map<nat, Tick>)

  /** The latest a send begun at since, and then its record, can take. */
  function Deadline(l: Limits, start: int, since: int): int {
    var send := if since + SEND_TIMEOUT < start + TICK_BUDGET + l.overrun then since + SEND_TIMEOUT
                else start + TICK_BUDGET + l.overrun;
    send + FINISH_TIMEOUT
  }

  // ---- steps ----

  /** Time passes, though not past the deadline of a send under way. */
  ghost predicate Passes(l: Limits, s: System, s': System) {
    && s'.now >= s.now && s' == s.(now := s'.now)
    && forall t :: t in s.ticks && s.ticks[t].Sending? ==> s'.now <= Deadline(l, s.ticks[t].start, s.ticks[t].since)
  }

  ghost predicate Begins(l: Limits, s: System, t: nat, s': System) {
    && t !in s.ticks
    && exists handed ::
         s.now - l.lag <= handed <= s.now && s' == s.(ticks := s.ticks[t := Begun(s.now, handed)])
  }

  /** ClaimAlertDeliveries with the handed time: a due delivery nobody's lease still covers. */
  ghost predicate Claims(s: System, t: nat, s': System) {
    && t in s.ticks && s.ticks[t].Begun?
    && var handed := s.ticks[t].handed;
    && s.row.due && s.row.nextAttemptAt <= handed
    && (s.row.leaseUntil.None? || s.row.leaseUntil.value < handed)
    && s' == s.(row := s.row.(leaseUntil := Some(handed + LEASE)), ticks := s.ticks[t := Holding(s.ticks[t].start)])
  }

  /** A delivery not begun by the time the tick's context ends is left to its lease. */
  ghost predicate Sends(s: System, t: nat, s': System) {
    && t in s.ticks && s.ticks[t].Holding? && s.now <= s.ticks[t].start + TICK_BUDGET
    && s' == s.(ticks := s.ticks[t := Sending(s.ticks[t].start, s.now)])
  }

  /** The attempt is recorded, which frees the lease, or the record fails and the row stays. */
  ghost predicate Finishes(s: System, t: nat, s': System) {
    && t in s.ticks && s.ticks[t].Sending?
    && (s'.row == s.row || (s.row.due && s'.row.leaseUntil.None?))
    && s' == s.(row := s'.row, ticks := s.ticks[t := Over])
  }

  ghost predicate Stops(s: System, t: nat, s': System) {
    t in s.ticks && s' == s.(ticks := s.ticks[t := Over])
  }

  /** The channel is removed: the delivery is cancelled, whoever is sending it. */
  ghost predicate Cancelled(s: System, s': System) {
    s' == s.(row := Row(false, s.row.nextAttemptAt, None))
  }

  ghost predicate Step(l: Limits, s: System, s': System) {
    || Passes(l, s, s')
    || Cancelled(s, s')
    || exists t :: Begins(l, s, t, s') || Claims(s, t, s') || Sends(s, t, s') || Finishes(s, t, s') || Stops(s, t, s')
  }

  ghost predicate Run(l: Limits, states: seq<System>) {
    && |states| >= 1 && states[0].ticks == map[] && states[0].row.leaseUntil.None?
    && forall i, j :: 0 <= i && j == i + 1 < |states| ==> Step(l, states[i], states[j])
  }

  /** The delivery is being sent by one tick at most. */
  ghost predicate Exclusive(s: System) {
    forall t, u :: t in s.ticks && u in s.ticks && s.ticks[t].Sending? && s.ticks[u].Sending? ==> t == u
  }

  /** The lag the lease leaves room for: 40 s when sends end with their tick, 30 s when they may outlive it
      by one send timeout. */
  function AllowedLag(l: Limits): int {
    LEASE - TICK_BUDGET - l.overrun - FINISH_TIMEOUT
  }

  // ---- a lag within the allowance excludes a second sender ----

  /** A tick that is sending, or may still begin to. */
  ghost predicate Live(s: System, t: nat) {
    t in s.ticks && match s.ticks[t]
                    case Holding(start) => s.now <= start + TICK_BUDGET
                    case Sending(_, _) => true
                    case _ => false
  }

  /** The latest a tick can be at work on the delivery. */
  function LastMoment(l: Limits, start: int): int {
    start + TICK_BUDGET + l.overrun + FINISH_TIMEOUT
  }

  ghost predicate TickHolds(l: Limits, s: System, t: nat)
    requires t in s.ticks
  {
    match s.ticks[t]
    case Begun(start, handed) => start - l.lag <= handed <= start <= s.now
    case Holding(start) => start <= s.now
    case Sending(start, since) => start <= since <= s.now <= Deadline(l, start, since) && since <= start + TICK_BUDGET
    case Over => true
  }

  /** While a tick is live, an uncancelled delivery's lease outlasts it, and it is the only one. */
  ghost predicate Sound(l: Limits, s: System) {
    && (forall t :: t in s.ticks ==> TickHolds(l, s, t))
    && (forall t :: Live(s, t) && s.row.due ==>
          s.row.leaseUntil.Some? && s.row.leaseUntil.value >= LastMoment(l, s.ticks[t].start))
    && (forall t, u :: Live(s, t) && Live(s, u) ==> t == u)
  }

  lemma LeaseCovers(l: Limits, s: System, t: nat)
    requires l.Valid() && Sound(l, s) && Live(s, t) && s.row.due
    ensures s.row.leaseUntil.Some? && s.row.leaseUntil.value >= s.now
  {
    assert TickHolds(l, s, t);
  }

  lemma ClaimKeeps(l: Limits, s: System, t: nat, s': System)
    requires l.Valid() && l.lag <= AllowedLag(l) && Sound(l, s) && Claims(s, t, s')
    ensures Sound(l, s')
  {
    assert TickHolds(l, s, t);
    forall u ensures !Live(s, u) {
      if Live(s, u) {
        LeaseCovers(l, s, u);
      }
    }
    forall u | Live(s', u) ensures u == t {
      assert u != t ==> Live(s, u);
    }
    forall u | u in s'.ticks ensures TickHolds(l, s', u) {
      assert u != t ==> TickHolds(l, s, u);
    }
  }

  /** A step of tick t that leaves it over, or as live as it was, and frees no one else's lease. */
  lemma OwnStepKeeps(l: Limits, s: System, t: nat, s': System)
    requires l.Valid() && Sound(l, s) && (Sends(s, t, s') || Finishes(s, t, s') || Stops(s, t, s'))
    ensures Sound(l, s')
  {
    forall u | Live(s', u) ensures Live(s, u) && s'.ticks[u].start == s.ticks[u].start {
    }
    forall u | u in s'.ticks ensures TickHolds(l, s', u) {
      assert TickHolds(l, s, u);
    }
    if Finishes(s, t, s') {
      assert Live(s, t);
    }
  }

  lemma StepKeeps(l: Limits, s: System, s': System)
    requires l.Valid() && l.lag <= AllowedLag(l) && Sound(l, s) && Step(l, s, s')
    ensures Sound(l, s')
  {
    if Passes(l, s, s') || Cancelled(s, s') {
      forall u | Live(s', u) ensures Live(s, u) {
      }
      forall u | u in s'.ticks ensures TickHolds(l, s', u) {
        assert TickHolds(l, s, u);
      }
    } else {
      var t :| Begins(l, s, t, s') || Claims(s, t, s') || Sends(s, t, s') || Finishes(s, t, s') || Stops(s, t, s');
      if Claims(s, t, s') {
        ClaimKeeps(l, s, t, s');
      } else if Begins(l, s, t, s') {
        forall u | Live(s', u) ensures Live(s, u) {
        }
        forall u | u in s'.ticks ensures TickHolds(l, s', u) {
          assert u != t ==> TickHolds(l, s, u);
        }
      } else {
        OwnStepKeeps(l, s, t, s');
      }
    }
  }

  lemma {:induction false} RunKeeps(l: Limits, states: seq<System>, n: nat)
    requires l.Valid() && l.lag <= AllowedLag(l) && Run(l, states) && n < |states|
    ensures Sound(l, states[n])
  {
    if n > 0 {
      RunKeeps(l, states, n - 1);
      StepKeeps(l, states[n - 1], states[n]);
    }
  }

  // ---- a longer lag does not ----

  /** The first tick claims with a lease that lapses while its last send is still under way. */
  function Overlap(l: Limits, n: nat): System {
    var start := l.lag;
    var since := start + TICK_BUDGET + l.overrun - SEND_TIMEOUT;
    var late := start + TICK_BUDGET + l.overrun + FINISH_TIMEOUT;
    var free, held, taken := Row(true, 0, None), Row(true, 0, Some(LEASE)), Row(true, 0, Some(late + LEASE));
    match n
    case 0 => System(start, free, map[])
    case 1 => System(start, free, map[0 := Begun(start, 0)])
    case 2 => System(start, held, map[0 := Holding(start)])
    case 3 => System(since, held, map[0 := Holding(start)])
    case 4 => System(since, held, map[0 := Sending(start, since)])
    case 5 => System(late, held, map[0 := Sending(start, since)])
    case 6 => System(late, held, map[0 := Sending(start, since), 1 := Begun(late, late)])
    case 7 => System(late, taken, map[0 := Sending(start, since), 1 := Holding(late)])
    case _ => System(late, taken, map[0 := Sending(start, since), 1 := Sending(late, late)])
  }

  lemma OverlapStep(l: Limits, n: nat)
    requires l.Valid() && l.lag > AllowedLag(l) && n < 8
    ensures Step(l, Overlap(l, n), Overlap(l, n + 1))
  {
    var s, s' := Overlap(l, n), Overlap(l, n + 1);
    var t: nat := if n < 5 then 0 else 1;
    if n == 0 {
      assert s' == s.(ticks := s.ticks[t := Begun(s.now, 0)]);
      assert Begins(l, s, t, s');
    } else if n == 1 || n == 6 {
      assert Claims(s, t, s');
    } else if n == 2 || n == 4 {
      assert Passes(l, s, s');
    } else if n == 3 || n == 7 {
      assert Sends(s, t, s');
    } else {
      assert s' == s.(ticks := s.ticks[t := Begun(s.now, s.now)]);
      assert Begins(l, s, t, s');
    }
  }

  lemma SoundIsExclusive(l: Limits, s: System)
    requires Sound(l, s)
    ensures Exclusive(s)
  {
    forall t, u | t in s.ticks && u in s.ticks && s.ticks[t].Sending? && s.ticks[u].Sending? ensures t == u {
      assert Live(s, t) && Live(s, u);
    }
  }

  ghost predicate AlwaysExclusive(l: Limits) {
    forall states: seq<System>, n: nat :: Run(l, states) && n < |states| ==> Exclusive(states[n])
  }

  /** No delivery is ever being sent by two ticks at once if, and only if, the lag is at most 40 s less the overrun. */
  lemma ExclusiveIffLagAllowed(l: Limits)
    requires l.Valid()
    ensures AlwaysExclusive(l) <==> l.lag <= 40_000_000_000 - l.overrun
  {
    if l.lag <= AllowedLag(l) {
      forall states: seq<System>, n: nat | Run(l, states) && n < |states| ensures Exclusive(states[n]) {
        RunKeeps(l, states, n);
        SoundIsExclusive(l, states[n]);
      }
    } else {
      var states := seq(9, n requires 0 <= n => Overlap(l, n));
      forall i, j | 0 <= i && j == i + 1 < |states| ensures Step(l, states[i], states[j]) {
        OverlapStep(l, i);
      }
      assert Run(l, states);
      var last := states[8];
      assert last.ticks[0].Sending? && last.ticks[1].Sending?;
      assert !Exclusive(last);
    }
  }

  /** A tick takes a delivery only when it is due, planned for no later than now and under no lease that still
      runs, and then leases it for two minutes from the time it was handed. */
  lemma ClaimsOnlyTheDue(l: Limits, states: seq<System>, i: nat, t: nat)
    requires l.Valid() && Run(l, states) && i + 1 < |states|
    requires t in states[i].ticks && states[i].ticks[t].Begun?
    requires t in states[i + 1].ticks && states[i + 1].ticks[t].Holding?
    ensures var row, handed := states[i].row, states[i].ticks[t].handed;
            && row.due && row.nextAttemptAt <= handed && (row.leaseUntil.Some? ==> row.leaseUntil.value < handed)
            && states[i + 1].row == row.(leaseUntil := Some(handed + 120_000_000_000))
  {
    assert Step(l, states[i], states[i + 1]);
  }

  /** A send begins only within 75 s of its tick. */
  lemma SendsWithinTheBudget(l: Limits, states: seq<System>, i: nat, t: nat)
    requires l.Valid() && Run(l, states) && i + 1 < |states|
    requires t in states[i].ticks && !states[i].ticks[t].Sending?
    requires t in states[i + 1].ticks && states[i + 1].ticks[t].Sending?
    ensures states[i].ticks[t].Holding? && states[i].now <= states[i].ticks[t].start + 75_000_000_000
    ensures states[i + 1].ticks[t] == Sending(states[i].ticks[t].start, states[i].now)
  {
    assert Step(l, states[i], states[i + 1]);
  }

  /** And it can take any such delivery. */
  lemma TheDueCanBeClaimed(l: Limits, s: System, t: nat)
    requires t in s.ticks && s.ticks[t].Begun? && s.row.due && s.row.nextAttemptAt <= s.ticks[t].handed
    requires s.row.leaseUntil.None? || s.row.leaseUntil.value < s.ticks[t].handed
    ensures exists s' :: Step(l, s, s') && t in s'.ticks && s'.ticks[t].Holding?
  {
    var start, handed := s.ticks[t].start, s.ticks[t].handed;
    var s' := s.(row := s.row.(leaseUntil := Some(handed + LEASE)), ticks := s.ticks[t := Holding(start)]);
    assert Claims(s, t, s');
  }

  /** A tick that recorded its attempt frees the delivery for the next; one that could not leaves its lease. */
  lemma RecordingFrees(l: Limits, s: System, t: nat, row: Row)
    requires t in s.ticks && s.ticks[t].Sending? && s.row.due
    requires row == s.row || row.leaseUntil.None?
    ensures Step(l, s, s.(row := row, ticks := s.ticks[t := Over]))
  {
    assert Finishes(s, t, s.(row := row, ticks := s.ticks[t := Over]));
  }
}
