/** The messages about one incident (internal/alert/evaluator.go, settle and reminderDue;
    internal/alert/message.go, rules; internal/store/pgstore, ApplyAlertOccurrence and queueChange).
    Times are integers of seconds. */
module AlertReminders {
  import opened Common

  const REMINDER_EVERY := 14400

  function Severity(ruleId: string): string {
    if ruleId in {"job-failed", "recording-lost", "ingress-error"} then "high" else "medium"
  }

  /** A firing or reminder message: when it was queued and the occurrence count it carried. */
  datatype Message = Message(at: int, occurrences: nat)

  /** The incident's row, and the messages queued about it. */
  datatype Incident = Incident(
    ruleId: string, firing: bool, occurrences: nat, notifiedAt: Option<int>, notifiedOccurrences: nat,
    messages: seq<Message>)

  /** What the evaluator does to an incident in one turn. verdict is whether its resolve rule held; sending
      and queues whether its rule sends when it is read and when the message is queued. */
  datatype Event =
    | Occurrence
    | Settle(now: int, resolved: bool, sending: bool, queues: bool)

  /** queueChange: nothing is queued or recorded for a rule without a channel or switched off. */
  function Queued(inc: Incident, now: int, queues: bool): Incident {
    if queues then
      inc.(notifiedAt := Some(now), notifiedOccurrences := inc.occurrences,
           messages := inc.messages + [Message(now, inc.occurrences)])
    else inc
  }

  function Opened(ruleId: string, now: int, queues: bool): Incident {
    Queued(Incident(ruleId, true, 1, None, 0, []), now, queues)
  }

  predicate ReminderDue(inc: Incident, now: int) {
    && inc.notifiedAt.Some? && inc.occurrences > inc.notifiedOccurrences
    && (|| now - inc.notifiedAt.value >= REMINDER_EVERY
        || (Severity(inc.ruleId) == "high" && inc.notifiedOccurrences > 0
            && inc.occurrences >= 2 * inc.notifiedOccurrences))
  }

  /** An occurrence joins the incident, reopening one resolved inside the flap guard without a message. */
  function Next(inc: Incident, e: Event): Incident {
    match e
    case Occurrence => inc.(firing := true, occurrences := inc.occurrences + 1)
    case Settle(now, resolved, sending, queues) =>
      if !inc.firing then inc
      else if resolved then inc.(firing := false)
      else if !sending then inc
      else if inc.notifiedAt.None? || ReminderDue(inc, now) then Queued(inc, now, queues)
      else inc
  }

  function After(inc: Incident, events: seq<Event>): Incident {
    if events == [] then inc else Next(After(inc, events[..|events| - 1]), events[|events| - 1])
  }

  /** From one message to the next: four hours passed, or the rule is high and the count doubled. */
  predicate Spaced(ruleId: string, a: Message, b: Message) {
    || b.at - a.at >= REMINDER_EVERY
    || (Severity(ruleId) == "high" && b.occurrences >= 2 * a.occurrences)
  }

  predicate Paced(inc: Incident) {
    && inc.occurrences >= 1
    && (inc.messages == [] <==> inc.notifiedAt.None?)
    && (inc.messages != [] ==>
          inc.messages[|inc.messages| - 1] == Message(inc.notifiedAt.value, inc.notifiedOccurrences))
    && (forall i :: 0 <= i < |inc.messages| ==> 1 <= inc.messages[i].occurrences <= inc.occurrences)
    && (forall i, j :: 0 <= i && j == i + 1 < |inc.messages| ==>
          && Spaced(inc.ruleId, inc.messages[i], inc.messages[j])
          && inc.messages[i].occurrences < inc.messages[j].occurrences)
  }

  lemma {:induction false} EveryIncidentIsPaced(ruleId: string, now: int, queues: bool, events: seq<Event>)
    ensures After(Opened(ruleId, now, queues), events).ruleId == ruleId
    ensures Paced(After(Opened(ruleId, now, queues), events))
  {
    if events != [] {
      EveryIncidentIsPaced(ruleId, now, queues, events[..|events| - 1]);
    }
  }

  /** Messages i to j of the incident fall inside one window shorter than four hours. */
  predicate InShortWindow(inc: Incident, i: nat, j: nat)
    requires j < |inc.messages|
  {
    forall x, y :: i <= x <= j && i <= y <= j ==> inc.messages[y].at - inc.messages[x].at < REMINDER_EVERY
  }

  lemma {:induction false} Doubling(inc: Incident, i: nat, j: nat)
    requires Paced(inc) && i <= j < |inc.messages| && InShortWindow(inc, i, j)
    ensures inc.messages[j].occurrences >= Pow2(j - i) * inc.messages[i].occurrences
    ensures i < j ==> Severity(inc.ruleId) == "high"
    decreases j
  {
    if i < j {
      Doubling(inc, i, j - 1);
      assert Spaced(inc.ruleId, inc.messages[j - 1], inc.messages[j]);
      assert inc.messages[j].at - inc.messages[j - 1].at < REMINDER_EVERY;
      DoubleProduct(Pow2(j - 1 - i), inc.messages[i].occurrences);
    }
  }

  lemma DoubleProduct(p: int, q: int)
    ensures 2 * p * q == 2 * (p * q)
  {
  }

  /** m >= 2 messages inside a window shorter than four hours, about any incident and after any events,
      imply a high rule and a count grown at least 2^(m-1)-fold. */
  lemma ShortWindowIsLogarithmic(ruleId: string, start: int, queues: bool, events: seq<Event>, i: nat, j: nat)
    requires
      var inc := After(Opened(ruleId, start, queues), events);
      i < j < |inc.messages| && InShortWindow(inc, i, j)
    ensures
      var messages := After(Opened(ruleId, start, queues), events).messages;
      && Severity(ruleId) == "high"
      && messages[j].occurrences >= Pow2(j - i) * messages[i].occurrences
      && messages[j].occurrences >= Pow2(j - i)
  {
    EveryIncidentIsPaced(ruleId, start, queues, events);
    var inc := After(Opened(ruleId, start, queues), events);
    Doubling(inc, i, j);
    AtLeast(Pow2(j - i), inc.messages[i].occurrences);
  }

  lemma AtLeast(p: nat, q: nat)
    requires q >= 1
    ensures p * q >= p
  {
  }

  /** The steps of at least four hours among messages 0 to j. */
  function LongSteps(messages: seq<Message>, j: nat): nat
    requires j < |messages|
  {
    if j == 0 then 0
    else LongSteps(messages, j - 1) + if messages[j].at - messages[j - 1].at >= REMINDER_EVERY then 1 else 0
  }

  predicate InOrder(messages: seq<Message>) {
    forall x, y :: 0 <= x && y == x + 1 < |messages| ==> messages[x].at <= messages[y].at
  }

  lemma {:induction false} LongStepTakesLong(messages: seq<Message>, j: nat)
    requires InOrder(messages) && j < |messages|
    ensures LongSteps(messages, j) <= j
    ensures messages[j].at - messages[0].at >= LongSteps(messages, j) * REMINDER_EVERY
  {
    if j > 0 {
      LongStepTakesLong(messages, j - 1);
      assert messages[j - 1].at <= messages[j].at;
      var before := LongSteps(messages, j - 1);
      assert (before + 1) * REMINDER_EVERY == before * REMINDER_EVERY + REMINDER_EVERY;
    }
  }

  lemma {:induction false} ShortStepDoubles(inc: Incident, j: nat)
    requires Paced(inc) && InOrder(inc.messages) && j < |inc.messages|
    ensures LongSteps(inc.messages, j) <= j
    ensures inc.messages[j].occurrences >= Pow2(j - LongSteps(inc.messages, j))
  {
    if j > 0 {
      ShortStepDoubles(inc, j - 1);
      assert Spaced(inc.ruleId, inc.messages[j - 1], inc.messages[j]);
    }
  }

  /** Over an incident's whole life, however long: beyond one message per four hours since the first, the
      messages are logarithmic in the occurrences. */
  lemma MessagesAreBounded(ruleId: string, start: int, queues: bool, events: seq<Event>)
    requires
      var messages := After(Opened(ruleId, start, queues), events).messages;
      messages != [] && InOrder(messages)
    ensures
      var inc := After(Opened(ruleId, start, queues), events);
      var spaced := (inc.messages[|inc.messages| - 1].at - inc.messages[0].at) / REMINDER_EVERY;
      |inc.messages| - 1 <= spaced || (spaced >= 0 && Pow2(|inc.messages| - 1 - spaced) <= inc.occurrences)
  {
    EveryIncidentIsPaced(ruleId, start, queues, events);
    BoundedWhenPaced(After(Opened(ruleId, start, queues), events));
  }

  lemma BoundedWhenPaced(inc: Incident)
    requires Paced(inc) && inc.messages != [] && InOrder(inc.messages)
    ensures
      var spaced := (inc.messages[|inc.messages| - 1].at - inc.messages[0].at) / REMINDER_EVERY;
      |inc.messages| - 1 <= spaced || (spaced >= 0 && Pow2(|inc.messages| - 1 - spaced) <= inc.occurrences)
  {
    var j := |inc.messages| - 1;
    LongStepTakesLong(inc.messages, j);
    ShortStepDoubles(inc, j);
    var spaced := (inc.messages[j].at - inc.messages[0].at) / REMINDER_EVERY;
    if spaced < j {
      Pow2Monotone(j - spaced, j - LongSteps(inc.messages, j));
    }
  }

  // ----- exactly which messages are sent -----

  /** A message is wanted of an incident that fires and does not resolve, while its rule sends: the first; and
      another once something new occurred since the last, after four hours or, for a high rule, at twice the
      count. */
  predicate Wanted(inc: Incident, e: Event) {
    && e.Settle? && inc.firing && !e.resolved && e.sending
    && (inc.messages != [] ==>
          var last := inc.messages[|inc.messages| - 1];
          && inc.occurrences > last.occurrences
          && (|| e.now - last.at >= 14400
              || (inc.ruleId in {"job-failed", "recording-lost", "ingress-error"}
                  && inc.occurrences >= 2 * last.occurrences)))
  }

  /** Every message wanted is sent, unless its rule stops sending meanwhile, and no other is. */
  lemma WantedAreSent(ruleId: string, start: int, queues: bool, events: seq<Event>, e: Event)
    ensures var inc := After(Opened(ruleId, start, queues), events);
            After(Opened(ruleId, start, queues), events + [e]).messages
            == inc.messages
               + if Wanted(inc, e) && e.queues then [Message(e.now, inc.occurrences)] else []
  {
    EveryIncidentIsPaced(ruleId, start, queues, events);
    assert (events + [e])[..|events|] == events;
  }

  function Occurrences(events: seq<Event>): nat {
    if events == [] then 0 else Occurrences(events[..|events| - 1]) + if events[|events| - 1].Occurrence? then 1 else 0
  }

  /** Something occurred after the nth event. */
  predicate OccurredAfter(events: seq<Event>, n: nat) {
    exists m :: n < m < |events| && events[m].Occurrence?
  }

  predicate Resolves(e: Event) {
    e.Settle? && e.resolved
  }

  lemma OccurredBefore(events: seq<Event>, n: nat)
    requires events != [] && n < |events| - 1
    ensures OccurredAfter(events, n)
            <==> events[|events| - 1].Occurrence? || OccurredAfter(events[..|events| - 1], n)
  {
    var before := events[..|events| - 1];
    if m :| n < m < |before| && before[m].Occurrence? {
      assert events[m].Occurrence?;
    }
    if m :| n < m < |events| && events[m].Occurrence? {
      assert m < |before| ==> before[m].Occurrence?;
    }
  }

  /** An incident counts its occurrences, and fires unless it was resolved after the last of them. */
  lemma {:induction false} OccurrencesCount(ruleId: string, start: int, queues: bool, events: seq<Event>)
    ensures var inc := After(Opened(ruleId, start, queues), events);
            && inc.occurrences == 1 + Occurrences(events)
            && (inc.firing <==> forall n :: 0 <= n < |events| && Resolves(events[n]) ==> OccurredAfter(events, n))
  {
    if events != [] {
      var before, last := events[..|events| - 1], |events| - 1;
      OccurrencesCount(ruleId, start, queues, before);
      forall n | 0 <= n < last
        ensures before[n] == events[n]
        ensures OccurredAfter(events, n) <==> events[last].Occurrence? || OccurredAfter(before, n)
      {
        OccurredBefore(events, n);
      }
      assert !OccurredAfter(events, last);
    }
  }
}
