/** A session store that skips the commits which only move an expiry a little
    (internal/auth/sessionstore.go), against the store that writes every commit. */
module QuietSessions {
  import opened Common

  datatype Row = Row(bytes: string, expiry: int)

  /** A process's memory of a row: the fingerprint of its bytes when they were last read or written here, the
      expiry last written here, and when the entry was last touched. */
  datatype Seen = Seen(read: Option<string>, committed: Option<int>, touched: int)

  type Table = map<string, Row>

  datatype State = State(inner: Table, seen: map<string, Seen>, ops: nat)

  /** Fixed for one store: the slack, and what a session's bytes hold however they are encoded. */
  datatype Config = Config(slack: int, fingerprint: string -> string)

  /** How the inner store meets a write: done, not done, or done with its answer lost. */
  datatype Outcome = Done | NotDone | Unanswered

  /** A call at a time; fails says the inner store could not be read. */
  datatype Op =
    | Find(token: string, now: int, fails: bool)
    | Commit(token: string, bytes: string, expiry: int, now: int, outcome: Outcome)
    | Delete(token: string, now: int, outcome: Outcome)

  const SWEEP_EVERY := 1024
  const HOUR := 3_600_000_000_000

  /** The inner store answers an expired session as not found. */
  predicate Found(t: Table, token: string, now: int) {
    token in t && now < t[token].expiry
  }

  function Swept(seen: map<string, Seen>, ops: nat, now: int): map<string, Seen> {
    if ops % SWEEP_EVERY != 0 then seen
    else map t | t in seen && seen[t].touched >= now - HOUR :: seen[t]
  }

  predicate Skips(c: Config, s: State, token: string, bytes: string, expiry: int) {
    && token in s.seen && s.seen[token].read == Some(c.fingerprint(bytes))
    && s.seen[token].committed.Some? && expiry - s.seen[token].committed.value < c.slack
  }

  function Remembered(s: State, token: string, entry: Seen, now: int): State {
    s.(seen := Swept(s.seen[token := entry], s.ops + 1, now), ops := s.ops + 1)
  }

  function Next(c: Config, s: State, op: Op): State {
    match op
    case Find(token, now, fails) =>
      if fails || !Found(s.inner, token, now) then s.(seen := s.seen - {token})
      else
        var committed := if token in s.seen then s.seen[token].committed else None;
        Remembered(s, token, Seen(Some(c.fingerprint(s.inner[token].bytes)), committed, now), now)
    case Commit(token, bytes, expiry, now, outcome) =>
      if Skips(c, s, token, bytes, expiry) || outcome.NotDone? then s
      else
        var written := s.(inner := s.inner[token := Row(bytes, expiry)]);
        if outcome.Unanswered? then written
        else Remembered(written, token, Seen(Some(c.fingerprint(bytes)), Some(expiry), now), now)
    case Delete(token, _, outcome) =>
      s.(seen := s.seen - {token}, inner := if outcome.NotDone? then s.inner else s.inner - {token})
  }

  /** The store that writes every commit. */
  function WriteThrough(t: Table, op: Op): Table {
    match op
    case Find(_, _, _) => t
    case Commit(token, bytes, expiry, _, outcome) => if outcome.NotDone? then t else t[token := Row(bytes, expiry)]
    case Delete(token, _, outcome) => if outcome.NotDone? then t else t - {token}
  }

  class QuietStore {
    const config: Config
    var inner: Table
    var seen: map<string, Seen>
    var ops: nat

    constructor (config: Config, inner: Table)
      ensures this.config == config && Value() == State(inner, map[], 0)
    {
      this.config, this.inner, seen, ops := config, inner, map[], 0;
    }

    function Value(): State
      reads this
    {
      State(inner, seen, ops)
    }

    method FindCtx(token: string, now: int, fails: bool) returns (bytes: Option<string>)
      modifies this`seen, this`ops
      ensures Value() == Next(config, old(Value()), Find(token, now, fails))
      ensures bytes == if !fails && Found(inner, token, now) then Some(inner[token].bytes) else None
    {
      if fails || !Found(inner, token, now) {
        seen := seen - {token};
        return None;
      }
      var entry := if token in seen then seen[token] else Seen(None, None, 0);
      bytes := Some(inner[token].bytes);
      seen := seen[token := entry.(read := Some(config.fingerprint(inner[token].bytes)), touched := now)];
      Sweep(now);
    }

    /** An error of the inner store is returned with nothing remembered or forgotten. */
    method CommitCtx(token: string, bytes: string, expiry: int, now: int, outcome: Outcome) returns (ok: bool)
      modifies this
      ensures Value() == Next(config, old(Value()), Commit(token, bytes, expiry, now, outcome))
      ensures ok <==> Skips(config, old(Value()), token, bytes, expiry) || outcome.Done?
    {
      var h := config.fingerprint(bytes);
      var skip := token in seen && seen[token].read == Some(h)
                  && seen[token].committed.Some? && expiry - seen[token].committed.value < config.slack;
      if skip {
        return true;
      }
      if !outcome.NotDone? {
        inner := inner[token := Row(bytes, expiry)];
      }
      if !outcome.Done? {
        return false;
      }
      seen := seen[token := Seen(Some(h), Some(expiry), now)];
      Sweep(now);
      ok := true;
    }

    method DeleteCtx(token: string, now: int, outcome: Outcome)
      modifies this
      ensures Value() == Next(config, old(Value()), Delete(token, now, outcome))
    {
      seen := seen - {token};
      if !outcome.NotDone? {
        inner := inner - {token};
      }
    }

    /** Every SWEEP_EVERY operations, drops the entries idle for an hour. */
    method Sweep(now: int)
      modifies this`seen, this`ops
      ensures ops == old(ops) + 1
      ensures seen == Swept(old(seen), ops, now)
      ensures forall t :: t in seen <==>
                            t in old(seen) && (ops % 1024 != 0 || old(seen)[t].touched >= now - 3_600_000_000_000)
      ensures forall t :: t in seen ==> seen[t] == old(seen)[t]
    {
      ops := ops + 1;
      if ops % SWEEP_EVERY != 0 {
        return;
      }
      var cutoff := now - HOUR;
      var todo := seen.Keys;
      while todo != {}
        invariant ops == old(ops) + 1
        invariant todo <= seen.Keys <= old(seen).Keys
        invariant forall t :: t in seen ==> seen[t] == old(seen)[t]
        invariant forall t :: t in old(seen) && t !in todo ==> (t in seen <==> old(seen)[t].touched >= cutoff)
        decreases |todo|
      {
        var t :| t in todo;
        todo := todo - {t};
        if seen[t].touched < cutoff {
          seen := seen - {t};
        }
      }
      assert seen == Swept(old(seen), ops, now);
    }
  }

  // ---- a history: this process's calls, and what other processes write ----

  /** Another process writes a session's row, or deletes it. */
  datatype Event = Own(op: Op) | Foreign(token: string, row: Option<Row>)

  function Changed(t: Table, token: string, row: Option<Row>): Table {
    if row.None? then t - {token} else t[token := row.value]
  }

  function Met(c: Config, s: State, e: Event): State {
    match e
    case Own(op) => Next(c, s, op)
    case Foreign(token, row) => s.(inner := Changed(s.inner, token, row))
  }

  function MetThrough(t: Table, e: Event): Table {
    match e
    case Own(op) => WriteThrough(t, op)
    case Foreign(token, row) => Changed(t, token, row)
  }

  function After(c: Config, s: State, events: seq<Event>): State {
    if events == [] then s else Met(c, After(c, s, events[..|events| - 1]), events[|events| - 1])
  }

  function AfterThrough(t: Table, events: seq<Event>): Table {
    if events == [] then t else MetThrough(AfterThrough(t, events[..|events| - 1]), events[|events| - 1])
  }

  function Start(t: Table): State {
    State(t, map[], 0)
  }

  /** What reached a session's row past this process's knowledge since it last found, wrote or deleted the
      session: nothing, or at last this content (None when the row was deleted). Besides other processes' writes it
      is this process's own commits whose answers were lost. */
  datatype Past = Nothing | Last(content: Option<string>)

  function PastKnowledge(c: Config, t: Table, events: seq<Event>, token: string): Past {
    if events == [] then Nothing
    else
      var before, s := events[..|events| - 1], After(c, Start(t), events[..|events| - 1]);
      var past := PastKnowledge(c, t, before, token);
      match events[|events| - 1]
      case Foreign(x, row) =>
        if x != token then past else Last(if row.None? then None else Some(c.fingerprint(row.value.bytes)))
      case Own(op) =>
        if op.token != token then past
        else if !op.Commit? then Nothing
        else if Skips(c, s, token, op.bytes, op.expiry) || op.outcome.NotDone? then past
        else if op.outcome.Unanswered? then Last(Some(c.fingerprint(op.bytes)))
        else Nothing
  }

  /** A commit skipped over content that is not its own. */
  predicate SkipsOver(c: Config, t: Table, events: seq<Event>, token: string, bytes: string, expiry: int) {
    var past := PastKnowledge(c, t, events, token);
    && Skips(c, After(c, Start(t), events), token, bytes, expiry)
    && past.Last? && past.content != Some(c.fingerprint(bytes))
  }

  // ---- what is remembered ----

  function ContentOf(c: Config, t: Table, token: string): Option<string> {
    if token in t then Some(c.fingerprint(t[token].bytes)) else None
  }

  /** What is remembered of a session is its content unless something got past; what got past last is its content. */
  predicate Knows(c: Config, s: State, past: Past, token: string) {
    && (past.Last? ==> ContentOf(c, s.inner, token) == past.content)
    && (past.Nothing? && token in s.seen && s.seen[token].read.Some? ==>
          ContentOf(c, s.inner, token) == s.seen[token].read)
  }

  lemma {:induction false} HistoryKnows(c: Config, t: Table, events: seq<Event>, token: string)
    ensures Knows(c, After(c, Start(t), events), PastKnowledge(c, t, events, token), token)
  {
    if events != [] {
      HistoryKnows(c, t, events[..|events| - 1], token);
    }
  }

  /** A commit that answers well leaves its content in the row if and only if it was written, or nothing got past
      this process since it last found, wrote or deleted the session, or what got past last has that content. */
  lemma {:induction false} CommitLeavesItsContentIff(
    c: Config, t: Table, events: seq<Event>, token: string, bytes: string, expiry: int, now: int, outcome: Outcome)
    requires Skips(c, After(c, Start(t), events), token, bytes, expiry) || outcome.Done?
    ensures
      var after := Next(c, After(c, Start(t), events), Commit(token, bytes, expiry, now, outcome));
      ContentOf(c, after.inner, token) == Some(c.fingerprint(bytes)) <==> !SkipsOver(c, t, events, token, bytes, expiry)
  {
    HistoryKnows(c, t, events, token);
  }

  /** So a session found just before is committed right, whoever wrote before. */
  lemma {:induction false} FindFirst(
    c: Config, t: Table, events: seq<Event>, token: string, bytes: string, expiry: int, now: int)
    ensures
      var found := events + [Own(Find(token, now, false))];
      var after := Next(c, After(c, Start(t), found), Commit(token, bytes, expiry, now, Done));
      ContentOf(c, after.inner, token) == Some(c.fingerprint(bytes))
  {
    var found := events + [Own(Find(token, now, false))];
    assert found[..|found| - 1] == events;
    CommitLeavesItsContentIff(c, t, found, token, bytes, expiry, now, Done);
  }

  /** Right after a commit or a find of a session, a commit of the content the row holds is skipped if and only if
      its expiry is less than the slack past the one this process last wrote; other content is always written. */
  lemma CommitAgainIsSkippedIff(c: Config, s: State, first: Op, bytes: string, expiry: int, now: int)
    requires first.Commit? && first.outcome.Done? && !Skips(c, s, first.token, first.bytes, first.expiry)
    ensures var written := Next(c, s, first);
            var found := Next(c, written, Find(first.token, first.now, false));
            var again := Commit(first.token, bytes, expiry, now, NotDone);
            && (Next(c, written, again.(outcome := Done)).inner == written.inner
                || c.fingerprint(bytes) != c.fingerprint(first.bytes) || expiry >= first.expiry + c.slack
                || Row(bytes, expiry) == Row(first.bytes, first.expiry))
            && (Skips(c, written, first.token, bytes, expiry)
                <==> c.fingerprint(bytes) == c.fingerprint(first.bytes) && expiry < first.expiry + c.slack)
            && (first.now < first.expiry ==>
                  (Skips(c, found, first.token, bytes, expiry)
                   <==> c.fingerprint(bytes) == c.fingerprint(first.bytes) && expiry < first.expiry + c.slack))
  {
  }

  /** A session that is looked for and not found is not remembered, and the memory of no other changes. */
  lemma UnknownIsNotRemembered(c: Config, s: State, token: string, now: int, fails: bool)
    requires fails || token !in s.inner || s.inner[token].expiry <= now
    ensures var after := Next(c, s, Find(token, now, fails));
            && token !in after.seen && after.inner == s.inner
            && forall t :: t in s.seen && t != token ==> t in after.seen && after.seen[t] == s.seen[t]
  {
  }

  // ---- the quiet store against the one that writes through ----

  predicate RowAgrees(c: Config, quiet: Row, through: Row) {
    && c.fingerprint(quiet.bytes) == c.fingerprint(through.bytes)
    && (quiet.expiry == through.expiry || 0 < through.expiry - quiet.expiry < c.slack)
  }

  /** The same sessions with the same content; an expiry never ahead, and behind by less than the slack. */
  predicate Agrees(c: Config, quiet: Table, through: Table) {
    quiet.Keys == through.Keys && forall k :: k in through ==> RowAgrees(c, quiet[k], through[k])
  }

  /** The expiry an event writes to a session's row, if it writes one. */
  function Writes(e: Event, token: string): Option<int> {
    match e
    case Own(Commit(x, _, expiry, _, outcome)) => if x == token && !outcome.NotDone? then Some(expiry) else None
    case Foreign(x, Some(row)) => if x == token then Some(row.expiry) else None
    case _ => None
  }

  function LastExpiry(t: Table, events: seq<Event>, token: string): Option<int> {
    if events == [] then (if token in t then Some(t[token].expiry) else None)
    else
      var w := Writes(events[|events| - 1], token);
      if w.Some? then w else LastExpiry(t, events[..|events| - 1], token)
  }

  /** Nobody moves a session's expiry back. */
  ghost predicate Forward(t: Table, events: seq<Event>) {
    forall n, token :: 0 <= n < |events| ==> ForwardAt(t, events, n, token)
  }

  predicate ForwardAt(t: Table, events: seq<Event>, n: nat, token: string)
    requires n < |events|
  {
    var w, last := Writes(events[n], token), LastExpiry(t, events[..n], token);
    w.Some? && last.Some? ==> w.value >= last.value
  }

  predicate AgreesAt(c: Config, t: Table, events: seq<Event>, n: nat)
    requires n <= |events|
  {
    Agrees(c, After(c, Start(t), events[..n]).inner, AfterThrough(t, events[..n]))
  }

  /** The nth event is a commit that the other store writes, and this one skips over other content. */
  predicate BadSkip(c: Config, t: Table, events: seq<Event>, n: nat)
    requires n < |events|
  {
    match events[n]
    case Own(Commit(token, bytes, expiry, _, outcome)) =>
      !outcome.NotDone? && SkipsOver(c, t, events[..n], token, bytes, expiry)
    case _ => false
  }

  /** What was last committed is no later than the row's expiry, and no write was earlier. */
  predicate Expires(s: State, through: Table, last: Option<int>, token: string) {
    && (token in through ==> last == Some(through[token].expiry))
    && (token in s.seen && s.seen[token].committed.Some? ==>
          && last.Some? && s.seen[token].committed.value <= last.value
          && (token in s.inner ==> s.seen[token].committed.value <= s.inner[token].expiry))
  }

  lemma {:induction false} HistoryExpires(c: Config, t: Table, events: seq<Event>, n: nat, token: string)
    requires Forward(t, events) && n <= |events|
    ensures Expires(After(c, Start(t), events[..n]), AfterThrough(t, events[..n]), LastExpiry(t, events[..n], token),
                    token)
  {
    if n > 0 {
      HistoryExpires(c, t, events, n - 1, token);
      assert events[..n][..n - 1] == events[..n - 1] && events[..n][n - 1] == events[n - 1];
      assert ForwardAt(t, events, n - 1, token);
    }
  }

  lemma GoodStepAgrees(c: Config, t: Table, events: seq<Event>, n: nat)
    requires Forward(t, events) && n < |events| && AgreesAt(c, t, events, n) && !BadSkip(c, t, events, n)
    ensures AgreesAt(c, t, events, n + 1)
  {
    assert events[..n + 1][..n] == events[..n] && events[..n + 1][n] == events[n];
    match events[n] {
      case Own(op) =>
        HistoryKnows(c, t, events[..n], op.token);
        HistoryExpires(c, t, events, n, op.token);
        assert ForwardAt(t, events, n, op.token);
      case Foreign(_, _) =>
    }
  }

  lemma BadSkipDisagrees(c: Config, t: Table, events: seq<Event>, n: nat)
    requires n < |events| && BadSkip(c, t, events, n)
    ensures !AgreesAt(c, t, events, n + 1)
  {
    assert events[..n + 1][..n] == events[..n] && events[..n + 1][n] == events[n];
    HistoryKnows(c, t, events[..n], events[n].op.token);
  }

  lemma {:induction false} GoodHistoryAgrees(c: Config, t: Table, events: seq<Event>, n: nat)
    requires Forward(t, events) && n <= |events|
    requires forall m :: 0 <= m < n ==> !BadSkip(c, t, events, m)
    ensures AgreesAt(c, t, events, n)
  {
    if n > 0 {
      GoodHistoryAgrees(c, t, events, n - 1);
      GoodStepAgrees(c, t, events, n - 1);
    } else {
      assert events[..0] == [];
    }
  }

  /** Through any calls, lost answers and other processes' writes that move no expiry back, the two tables agree
      after every event if and only if no commit is skipped over other content. */
  lemma QuietRefinesWriteThroughIff(c: Config, t: Table, events: seq<Event>)
    requires Forward(t, events)
    ensures (forall n :: 0 <= n <= |events| ==> AgreesAt(c, t, events, n))
            <==> (forall n :: 0 <= n < |events| ==> !BadSkip(c, t, events, n))
  {
    if forall n :: 0 <= n < |events| ==> !BadSkip(c, t, events, n) {
      forall n | 0 <= n <= |events| ensures AgreesAt(c, t, events, n) {
        GoodHistoryAgrees(c, t, events, n);
      }
    } else {
      var n :| 0 <= n < |events| && BadSkip(c, t, events, n);
      BadSkipDisagrees(c, t, events, n);
    }
  }

  /** A call of this process, with a plain answer. */
  predicate Plain(e: Event) {
    e.Own? && (e.op.Commit? ==> !e.op.outcome.Unanswered?)
  }

  lemma {:induction false} NothingGetsPast(c: Config, t: Table, events: seq<Event>, token: string)
    requires forall e :: e in events ==> Plain(e)
    ensures PastKnowledge(c, t, events, token) == Nothing
  {
    if events != [] {
      var before, e := events[..|events| - 1], events[|events| - 1];
      assert events == before + [e] && e in events;
      NothingGetsPast(c, t, before, token);
    }
  }

  /** So alone with a store that answers, the quiet store refines the one that writes through. */
  lemma QuietRefinesWriteThrough(c: Config, t: Table, events: seq<Event>)
    requires Forward(t, events) && forall e :: e in events ==> Plain(e)
    ensures Agrees(c, After(c, Start(t), events).inner, AfterThrough(t, events))
  {
    forall n | 0 <= n < |events| ensures !BadSkip(c, t, events, n) {
      if events[n].Own? {
        assert forall e :: e in events[..n] ==> e in events;
        NothingGetsPast(c, t, events[..n], events[n].op.token);
      }
    }
    GoodHistoryAgrees(c, t, events, |events|);
    assert events[..|events|] == events;
  }

  /** The nth event is a commit that the other store writes, and this one skips though its expiry is before the one
      last committed. */
  predicate MovesBack(c: Config, t: Table, events: seq<Event>, n: nat)
    requires n < |events|
  {
    match events[n]
    case Own(Commit(token, bytes, expiry, _, outcome)) =>
      var s := After(c, Start(t), events[..n]);
      !outcome.NotDone? && Skips(c, s, token, bytes, expiry) && expiry < s.seen[token].committed.value
    case _ => false
  }

  lemma {:induction false} CommittedIsTheRows(c: Config, t: Table, events: seq<Event>, token: string)
    requires forall e :: e in events ==> Plain(e)
    ensures var s := After(c, Start(t), events);
            token in s.seen && s.seen[token].committed.Some? ==>
              token in s.inner && s.inner[token].expiry == s.seen[token].committed.value
  {
    if events != [] {
      var before, e := events[..|events| - 1], events[|events| - 1];
      assert events == before + [e] && e in events;
      CommittedIsTheRows(c, t, before, token);
    }
  }

  lemma PlainStepAgreesIff(c: Config, t: Table, events: seq<Event>, n: nat)
    requires n < |events| && (forall e :: e in events ==> Plain(e)) && AgreesAt(c, t, events, n)
    ensures AgreesAt(c, t, events, n + 1) <==> !MovesBack(c, t, events, n)
  {
    assert events[..n + 1][..n] == events[..n] && events[..n + 1][n] == events[n];
    assert forall e :: e in events[..n] ==> e in events;
    assert events[n] in events && Plain(events[n]);
    var op := events[n].op;
    NothingGetsPast(c, t, events[..n], op.token);
    HistoryKnows(c, t, events[..n], op.token);
    CommittedIsTheRows(c, t, events[..n], op.token);
    var s, through := After(c, Start(t), events[..n]), AfterThrough(t, events[..n]);
    if op.Commit? && !op.outcome.NotDone? && Skips(c, s, op.token, op.bytes, op.expiry) {
      assert RowAgrees(c, s.inner[op.token], Row(op.bytes, op.expiry)) <==> !MovesBack(c, t, events, n);
      assert AfterThrough(t, events[..n + 1]) == through[op.token := Row(op.bytes, op.expiry)];
    }
  }

  lemma {:induction false} PlainHistoryAgrees(c: Config, t: Table, events: seq<Event>, n: nat)
    requires n <= |events| && forall e :: e in events ==> Plain(e)
    requires forall m :: 0 <= m < n ==> !MovesBack(c, t, events, m)
    ensures AgreesAt(c, t, events, n)
  {
    if n > 0 {
      PlainHistoryAgrees(c, t, events, n - 1);
      PlainStepAgreesIff(c, t, events, n - 1);
    } else {
      assert events[..0] == [];
    }
  }

  /** Without any promise about expiries: through its own answered calls the tables agree after every call if and
      only if no skipped commit has an expiry before the one last committed. */
  lemma OwnCallsAgreeIff(c: Config, t: Table, events: seq<Event>)
    requires forall e :: e in events ==> Plain(e)
    ensures (forall n :: 0 <= n <= |events| ==> AgreesAt(c, t, events, n))
            <==> (forall n :: 0 <= n < |events| ==> !MovesBack(c, t, events, n))
  {
    if forall n :: 0 <= n < |events| ==> !MovesBack(c, t, events, n) {
      forall n | 0 <= n <= |events| ensures AgreesAt(c, t, events, n) {
        PlainHistoryAgrees(c, t, events, n);
      }
    } else {
      var n :| 0 <= n < |events| && MovesBack(c, t, events, n);
      if AgreesAt(c, t, events, n) {
        PlainStepAgreesIff(c, t, events, n);
      }
    }
  }

  // ---- the two ways a commit is skipped over other content ----

  lemma OneMore(c: Config, t: Table, before: seq<Event>, e: Event)
    ensures After(c, Start(t), before + [e]) == Met(c, After(c, Start(t), before), e)
    ensures AfterThrough(t, before + [e]) == MetThrough(AfterThrough(t, before), e)
  {
    assert (before + [e])[..|before|] == before;
  }

  /** Content "a" is written; content "b" gets past this process; "a" is committed again, and skipped. */
  lemma SkippedOver(c: Config, past: Event, events: seq<Event>)
    requires c.slack > 0 && c.fingerprint("a") != c.fingerprint("b")
    requires past in {Own(Commit("token", "b", 100, 0, Unanswered)), Foreign("token", Some(Row("b", 100)))}
    requires events == [Own(Commit("token", "a", 100, 0, Done)), past, Own(Commit("token", "a", 100, 0, Done))]
    ensures Forward(map[], events)
    ensures After(c, Start(map[]), events).inner == map["token" := Row("b", 100)]
    ensures AfterThrough(map[], events) == map["token" := Row("a", 100)]
  {
    var none, again := [], Own(Commit("token", "a", 100, 0, Done));
    var one, two := none + [again], none + [again] + [past];
    OneMore(c, map[], none, again);
    OneMore(c, map[], one, past);
    OneMore(c, map[], two, again);
    assert events == two + [again];
    var s1, s2 := After(c, Start(map[]), one), After(c, Start(map[]), two);
    assert s1.inner == map["token" := Row("a", 100)] && s1.ops == 1;
    assert s1.seen == map["token" := Seen(Some(c.fingerprint("a")), Some(100), 0)];
    assert s2.inner == map["token" := Row("b", 100)] && s2.seen == s1.seen;
    assert Skips(c, s2, "token", "a", 100);
    assert AfterThrough(map[], two) == map["token" := Row("b", 100)];
    forall n, token | 0 <= n < |events| ensures ForwardAt(map[], events, n, token) {
      assert events[..0] == [] && events[..1] == one && events[..2] == two && one[..0] == [] && two[..1] == one;
    }
  }

  /** A commit whose answer was lost is undone by none that follows it with the old content. */
  lemma UnansweredCommitStays(c: Config, events: seq<Event>)
    requires c.slack > 0 && c.fingerprint("a") != c.fingerprint("b")
    requires events == [Own(Commit("token", "a", 100, 0, Done)), Own(Commit("token", "b", 100, 0, Unanswered)),
                        Own(Commit("token", "a", 100, 0, Done))]
    ensures Forward(map[], events)
    ensures After(c, Start(map[]), events).inner == map["token" := Row("b", 100)]
    ensures AfterThrough(map[], events) == map["token" := Row("a", 100)]
  {
    SkippedOver(c, events[1], events);
  }

  /** A session another process then overwrote keeps what that one wrote. */
  lemma SkippedOverAnotherWrite(c: Config, events: seq<Event>)
    requires c.slack > 0 && c.fingerprint("a") != c.fingerprint("b")
    requires events == [Own(Commit("token", "a", 100, 0, Done)), Foreign("token", Some(Row("b", 100))),
                        Own(Commit("token", "a", 100, 0, Done))]
    ensures Forward(map[], events)
    ensures After(c, Start(map[]), events).inner == map["token" := Row("b", 100)]
    ensures AfterThrough(map[], events) == map["token" := Row("a", 100)]
  {
    SkippedOver(c, events[1], events);
  }

  // ---- readers ----

  /** What a reader sees: a session the quiet store finds is found with the same content; one it does not
      find had less than the slack left to live. */
  lemma ReadersSeeTheSame(c: Config, quiet: Table, through: Table, token: string, now: int)
    requires Agrees(c, quiet, through)
    ensures Found(quiet, token, now) ==>
              Found(through, token, now) && ContentOf(c, quiet, token) == ContentOf(c, through, token)
    ensures Found(through, token, now) && !Found(quiet, token, now) ==> through[token].expiry - now < c.slack
  {
    if token in through {
      assert RowAgrees(c, quiet[token], through[token]);
    }
  }
}
