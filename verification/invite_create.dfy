/** Any number of Create calls on one invitation table and one mail server, step by step
    (internal/invite/invite.go, Create, repeat, deliver). A step is one call to the store or the mailer.
    Any store call may fail with or without having taken effect, the mail server may take a message
    whose acknowledgement is lost, and any caller may hang up or die at any step. */
module InviteCreate {
  import opened Common

  /** One valid call: key is the idempotency key, mails whether the service has a Mailer. */
  datatype Request = Request(organisation: string, email: string, role: string, key: Option<string>, mails: bool)

  /** A row of the table. startedAt is set when a send was to begin; emailed and failed record its
      outcome. A reset link has no role and no key. */
  datatype Invitation = Invitation(
    organisation: string, email: string, role: Option<string>, key: Option<string>, startedAt: Option<int>,
    emailed: bool, failed: bool, accepted: bool, revoked: bool)

  /** The table, the clock, the sends made, and what the mail server did with them: took, refused for
      certain, or left without an answer. */
  datatype World = World(
    rows: map<nat, Invitation>, now: int,
    sends: multiset<nat>, took: set<nat>, refused: set<nat>, limbo: set<nat>)

  datatype Answer =
    | Failed
    | Made(id: nat, emailed: bool, unknown: bool)
    | Repeat(id: nat, emailed: bool, unknown: bool)

  /** Where one call is. Conflicted is the second lookup, after a parallel call stored the key first. at is the
      time the row is to say its send starts, since that at which a send or its record began. */
  datatype Phase =
    | Looking(req: Request)
    | Checking(req: Request)
    | Creating(req: Request, at: int)
    | Conflicted(req: Request)
    | Polling(req: Request, id: nat, seen: Invitation)
    | Naming(req: Request, id: nat)
    | Sending(req: Request, id: nat, since: int)
    | Recording(req: Request, id: nat, sent: bool, since: int)
    | Answered(req: Request, answer: Answer)

  /** callers by number; writers are those one of whose steps changed a row. */
  datatype System = System(world: World, callers: map<nat, Phase>, writers: set<nat>)

  const SEND_TIMEOUT := 30
  const RECORD_TIMEOUT := 10
  const SPARE := 5

  /** How long a repeat waits for the first call's outcome. */
  const SEND_LEASE := SEND_TIMEOUT + RECORD_TIMEOUT + SPARE

  ghost predicate InFlight(inv: Invitation) {
    inv.startedAt.Some? && !inv.emailed && !inv.failed
  }

  ghost predicate HasKey(w: World, id: nat, req: Request) {
    id in w.rows && req.key.Some? && w.rows[id].organisation == req.organisation && w.rows[id].key == req.key
  }

  ghost predicate KeyTaken(w: World, req: Request) {
    exists id :: id in w.rows && HasKey(w, id, req)
  }

  ghost predicate SameRequest(inv: Invitation, req: Request) {
    inv.email == req.email && inv.role == Some(req.role)
  }

  // ---- steps ----

  /** repeat's lookup. A key with no row sends a first call on and a conflicted one away. */
  ghost predicate Lookup(w: World, req: Request, none: Phase, p': Phase) {
    || (!KeyTaken(w, req) && p' == none)
    || (exists id :: id in w.rows && HasKey(w, id, req) && p' ==
          if SameRequest(w.rows[id], req) then Polling(req, id, w.rows[id]) else Answered(req, Failed))
  }

  /** A row once a new invite for the same organisation and email is stored: an open invite is revoked. */
  function Replaced(r: Invitation, req: Request): Invitation {
    if r.organisation == req.organisation && r.email == req.email && r.role.Some? && !r.accepted && !r.revoked
    then r.(revoked := true)
    else r
  }

  /** CreateInvitation commits: the open invite for that email is revoked and the new row stored. */
  ghost predicate Stored(w: World, req: Request, at: int, id: nat, w': World) {
    && id !in w.rows && !KeyTaken(w, req)
    && w'.rows.Keys == w.rows.Keys + {id}
    && w'.rows[id] == Invitation(req.organisation, req.email, Some(req.role), req.key,
                                 if req.mails then Some(at) else None, false, false, false, false)
    && (forall i :: i in w.rows ==> w'.rows[i] == Replaced(w.rows[i], req))
    && w' == w.(rows := w'.rows)
  }

  ghost predicate CreatingStep(w: World, req: Request, at: int, w': World, p': Phase) {
    || (w' == w && KeyTaken(w, req) && p' == Conflicted(req))
    || (exists id :: id !in w.rows && Stored(w, req, at, id, w')
                     && (p' == Naming(req, id) || p' == Answered(req, Failed)))
  }

  ghost predicate PollingStep(w: World, p: Phase, w': World, p': Phase)
    requires p.Polling?
  {
    && w' == w
    && if InFlight(p.seen) && w.now < p.seen.startedAt.value + SEND_LEASE then
         p.id in w.rows && p' == Polling(p.req, p.id, w.rows[p.id])
       else
         p' == Answered(p.req, Repeat(p.id, p.seen.emailed, InFlight(p.seen)))
  }

  /** The mail server takes the message, refuses it, or leaves its acknowledgement unheard. */
  ghost predicate SendingStep(w: World, req: Request, id: nat, w': World, p': Phase) {
    var s := w.(sends := w.sends + multiset{id});
    || (w' == s.(took := s.took + {id})
        && (p' == Recording(req, id, true, w.now) || p' == Answered(req, Failed)))
    || (w' == s.(refused := s.refused + {id})
        && (p' == Recording(req, id, false, w.now) || p' == Answered(req, Failed)))
    || (w' == s.(limbo := s.limbo + {id})
        && (p' == Answered(req, Made(id, false, true)) || p' == Answered(req, Failed)))
  }

  ghost predicate RecordingStep(w: World, req: Request, id: nat, sent: bool, w': World, p': Phase)
  {
    && (w' == w || (id in w.rows && w' == w.(rows := w.rows[id :=
          if sent then w.rows[id].(emailed := true)
          else if w.rows[id].emailed then w.rows[id]
          else w.rows[id].(failed := true)])))
    && p' == Answered(req, Made(id, sent, false))
  }

  /** One step of one call. Failing, hanging up or dying is possible at every step. */
  ghost predicate CallerStep(w: World, p: Phase, w': World, p': Phase) {
    || (w' == w && !p.Answered? && p' == Answered(p.req, Failed))
    || match p
       case Looking(req) => w' == w && if req.key.None? then p' == Checking(req) else Lookup(w, req, Checking(req), p')
       case Checking(req) => w' == w && p' == Creating(req, w.now)
       case Creating(req, at) => CreatingStep(w, req, at, w', p')
       case Conflicted(req) => w' == w && Lookup(w, req, Answered(req, Failed), p')
       case Polling(_, _, _) => PollingStep(w, p, w', p')
       case Naming(req, id) =>
         w' == w && p' == if req.mails then Sending(req, id, w.now) else Answered(req, Made(id, false, false))
       case Sending(req, id, _) => SendingStep(w, req, id, w', p')
       case Recording(req, id, sent, _) => RecordingStep(w, req, id, sent, w', p')
       case Answered(_, _) => false
  }

  /** A link that was accepted or revoked stays so. */
  predicate Closes(inv: Invitation, accepted: bool, revoked: bool) {
    (inv.accepted ==> accepted) && (inv.revoked ==> revoked)
  }

  /** What happens around the calls: time passes, links are accepted or revoked, and the mail server
      may take a message whose acknowledgement was never heard. */
  ghost predicate WorldStep(w: World, w': World) {
    || (w'.now >= w.now && w' == w.(now := w'.now))
    || (exists id :: id in w.limbo && w' == w.(took := w.took + {id}))
    || (exists id, a, r :: id in w.rows && Closes(w.rows[id], a, r)
                           && w' == w.(rows := w.rows[id := w.rows[id].(accepted := a, revoked := r)]))
  }

  // ---- what every step keeps ----

  ghost predicate Untold(w: World, id: nat) {
    w.sends[id] == 0 && id !in w.took && id !in w.refused && id !in w.limbo
  }

  /** The outcome a caller is told about a send that was to begin. */
  ghost predicate Honest(w: World, id: nat, emailed: bool, unknown: bool) {
    && id in w.rows
    && (w.rows[id].startedAt.Some? ==> (emailed ==> id in w.took) && (!emailed && !unknown ==> id in w.refused))
  }

  ghost predicate LeasePassed(w: World, id: nat) {
    id in w.rows && w.rows[id].startedAt.Some? && w.now >= w.rows[id].startedAt.value + 45
  }

  ghost predicate Later(a: Invitation, b: Invitation) {
    && a.organisation == b.organisation && a.email == b.email && a.role == b.role && a.key == b.key
    && a.startedAt == b.startedAt && (a.emailed ==> b.emailed) && (a.failed ==> b.failed)
  }

  /** The row is of this very request. */
  ghost predicate MadeFor(w: World, id: nat, req: Request) {
    && id in w.rows && w.rows[id].organisation == req.organisation && w.rows[id].key == req.key
    && w.rows[id].email == req.email && w.rows[id].role == Some(req.role)
  }

  ghost predicate Holds(w: World, p: Phase) {
    match p
    case Polling(req, id, seen) => HasKey(w, id, req) && MadeFor(w, id, req) && Later(seen, w.rows[id])
    case Naming(req, id) =>
      && MadeFor(w, id, req)
      && w.rows[id].startedAt.Some? == req.mails && Untold(w, id)
    case Sending(req, id, _) => MadeFor(w, id, req) && w.rows[id].startedAt.Some? && Untold(w, id)
    case Recording(req, id, sent, _) =>
      && MadeFor(w, id, req)
      && w.rows[id].startedAt.Some?
      && (if sent then id in w.took else id in w.refused)
    case Answered(req, Made(id, emailed, unknown)) =>
      && Honest(w, id, emailed, unknown) && MadeFor(w, id, req)
      && (emailed ==> id in w.took) && (unknown ==> id in w.limbo)
    case Answered(req, Repeat(id, emailed, unknown)) =>
      HasKey(w, id, req) && MadeFor(w, id, req) && Honest(w, id, emailed, unknown) && (unknown ==> LeasePassed(w, id))
    case _ => true
  }

  /** Rows i and j were made under one organisation and idempotency key. */
  ghost predicate SameKey(w: World, i: nat, j: nat) {
    && i in w.rows && j in w.rows
    && w.rows[i].key.Some? && w.rows[i].key == w.rows[j].key && w.rows[i].organisation == w.rows[j].organisation
  }

  /** One row and its sends agree with what the mail server did. */
  ghost predicate Settled(w: World, i: nat) {
    && w.sends[i] <= 1
    && (!Untold(w, i) ==> i in w.rows && w.sends[i] == 1)
    && (i in w.rows && w.rows[i].emailed ==> i in w.took)
    && (i in w.rows && w.rows[i].failed ==> i in w.refused)
    && (i in w.refused ==> i !in w.took && i !in w.limbo)
  }

  ghost predicate Sound(w: World) {
    && (forall i, j :: SameKey(w, i, j) ==> i == j)
    && (forall i :: Settled(w, i))
  }

  ghost predicate Grows(w: World, w': World) {
    && (forall i :: i in w.rows ==> i in w'.rows && Later(w.rows[i], w'.rows[i]))
    && w.took <= w'.took && w.refused <= w'.refused && w.limbo <= w'.limbo && w.now <= w'.now
  }

  /** The call that stored row id: the only one that sends for it or answers as its maker. */
  ghost predicate Owns(p: Phase, id: nat) {
    match p
    case Naming(_, i) => i == id
    case Sending(_, i, _) => i == id
    case Recording(_, i, _, _) => i == id
    case Answered(_, Made(i, _, _)) => i == id
    case _ => false
  }

  ghost predicate SameSends(w: World, w': World, id: nat) {
    Untold(w, id) ==> Untold(w', id)
  }

  lemma OthersUndisturbed(w: World, w': World, p: Phase)
    requires Grows(w, w') && Holds(w, p)
    requires forall id :: Owns(p, id) ==> SameSends(w, w', id)
    ensures Holds(w', p)
  {
    match p {
      case Naming(_, id) => assert Owns(p, id);
      case Sending(_, id, _) => assert Owns(p, id);
      case _ =>
    }
  }

  lemma StoredKeeps(w: World, req: Request, at: int, id: nat, w': World)
    requires Sound(w) && Stored(w, req, at, id, w')
    ensures Sound(w') && Grows(w, w') && Untold(w', id)
  {
    assert Settled(w, id);
    forall i ensures Settled(w', i) {
      assert Settled(w, i);
    }
    forall i, j | SameKey(w', i, j) ensures i == j {
      assert i != id && j != id ==> SameKey(w, i, j);
      assert i == id && j != id ==> HasKey(w, j, req);
      assert j == id && i != id ==> HasKey(w, i, req);
    }
  }

  /** The table changes at most the outcome of row id, which agrees with the mail server. */
  lemma OutcomeKeeps(w: World, id: nat, w': World)
    requires Sound(w) && w'.rows.Keys == w.rows.Keys
    requires forall i :: i in w.rows ==>
               && Later(w.rows[i], w'.rows[i])
               && (i != id ==> w'.rows[i].emailed == w.rows[i].emailed && w'.rows[i].failed == w.rows[i].failed)
    requires forall i :: i != id ==> (i in w'.took <==> i in w.took) && (i in w'.refused <==> i in w.refused)
                                     && (i in w'.limbo <==> i in w.limbo) && w'.sends[i] == w.sends[i]
    requires Settled(w', id)
    ensures Sound(w')
    ensures forall i :: i != id ==> SameSends(w, w', i)
  {
    forall i ensures Settled(w', i) {
      assert Settled(w, i);
    }
    forall i, j | SameKey(w', i, j) ensures i == j {
      assert SameKey(w, i, j);
    }
  }

  lemma SendingKeeps(w: World, req: Request, id: nat, since: int, w': World, p': Phase)
    requires Sound(w) && Holds(w, Sending(req, id, since)) && SendingStep(w, req, id, w', p')
    ensures Sound(w') && Grows(w, w') && Holds(w', p')
    ensures forall i :: i != id ==> SameSends(w, w', i)
  {
    assert Settled(w, id);
    OutcomeKeeps(w, id, w');
  }

  lemma RecordingKeeps(w: World, req: Request, id: nat, sent: bool, since: int, w': World, p': Phase)
    requires Sound(w) && Holds(w, Recording(req, id, sent, since)) && RecordingStep(w, req, id, sent, w', p')
    ensures Sound(w') && Grows(w, w') && Holds(w', p')
    ensures forall i :: i != id ==> SameSends(w, w', i)
  {
    assert Settled(w, id);
    OutcomeKeeps(w, id, w');
  }

  lemma QuietStepKeeps(w: World, p: Phase, p': Phase)
    requires Sound(w) && Holds(w, p) && CallerStep(w, p, w, p')
    requires !p.Creating? && !p.Sending? && !p.Recording?
    ensures Holds(w, p') && forall id :: Owns(p', id) ==> Owns(p, id)
  {
    if p.Polling? {
      assert Settled(w, p.id);
    }
  }

  lemma CreatingKeeps(w: World, req: Request, at: int, w': World, p': Phase)
    requires Sound(w) && CreatingStep(w, req, at, w', p')
    ensures Sound(w') && Grows(w, w') && Holds(w', p')
    ensures forall id :: id in w.rows ==> SameSends(w, w', id) && !Owns(p', id)
  {
    if id :| id !in w.rows && Stored(w, req, at, id, w') && (p' == Naming(req, id) || p' == Answered(req, Failed)) {
      StoredKeeps(w, req, at, id, w');
    }
  }

  /** A call's own step: the world stays sound, what others rely on stays, and a row newly owned is new. */
  lemma CallerStepKeeps(w: World, p: Phase, w': World, p': Phase)
    requires Sound(w) && Holds(w, p) && CallerStep(w, p, w', p')
    ensures Sound(w') && Grows(w, w') && Holds(w', p')
    ensures forall id :: id in w.rows && !Owns(p, id) ==> SameSends(w, w', id)
    ensures forall id :: Owns(p', id) ==> Owns(p, id) || id !in w.rows
  {
    if w' == w && p' == Answered(p.req, Failed) {
      return;
    }
    match p {
      case Creating(req, at) => CreatingKeeps(w, req, at, w', p');
      case Sending(req, id, since) => SendingKeeps(w, req, id, since, w', p');
      case Recording(req, id, sent, since) => RecordingKeeps(w, req, id, sent, since, w', p');
      case _ => QuietStepKeeps(w, p, p');
    }
  }

  lemma WorldStepKeeps(w: World, w': World)
    requires Sound(w) && WorldStep(w, w')
    ensures Sound(w') && Grows(w, w') && forall id :: SameSends(w, w', id)
  {
    forall i ensures Settled(w', i) && SameSends(w, w', i) {
      assert Settled(w, i);
    }
    forall i, j | SameKey(w', i, j) ensures i == j {
      assert SameKey(w, i, j);
    }
  }

  // ---- whole runs ----

  /** A call that ends as a repeat, or may still, has changed no row. */
  ghost predicate MayStillRepeat(p: Phase) {
    p.Looking? || p.Checking? || p.Creating? || p.Conflicted? || p.Polling? || (p.Answered? && p.answer.Repeat?)
  }

  ghost predicate OneOwnerEach(callers: map<nat, Phase>) {
    forall c, d, id :: c in callers && d in callers && Owns(callers[c], id) && Owns(callers[d], id) ==> c == d
  }

  ghost predicate Safe(s: System) {
    && Sound(s.world)
    && (forall c :: c in s.callers ==> Holds(s.world, s.callers[c]))
    && OneOwnerEach(s.callers)
    && (forall c :: c in s.callers && MayStillRepeat(s.callers[c]) ==> c !in s.writers)
  }

  ghost predicate Initial(s: System) {
    && s.world.rows == map[] && s.world.sends == multiset{} && s.writers == {}
    && s.world.took == {} && s.world.refused == {} && s.world.limbo == {}
    && forall c :: c in s.callers ==> s.callers[c].Looking?
  }

  /** Caller c takes a step; with c no caller, the world does. */
  ghost predicate Step(s: System, c: nat, s': System) {
    if c in s.callers then
      && s'.callers.Keys == s.callers.Keys
      && CallerStep(s.world, s.callers[c], s'.world, s'.callers[c])
      && s'.callers == s.callers[c := s'.callers[c]]
      && s'.writers == if s'.world.rows == s.world.rows then s.writers else s.writers + {c}
    else
      WorldStep(s.world, s'.world) && s'.callers == s.callers && s'.writers == s.writers
  }

  /** What another call owns is a row that exists, and not the stepping call's. */
  lemma OthersRows(s: System, c: nat, d: nat, id: nat)
    requires Safe(s) && c in s.callers && d in s.callers && d != c && Owns(s.callers[d], id)
    ensures id in s.world.rows && !Owns(s.callers[c], id)
  {
    assert Holds(s.world, s.callers[d]);
  }

  lemma OwnersKept(s: System, c: nat, p': Phase)
    requires Safe(s) && c in s.callers
    requires forall id :: Owns(p', id) ==> Owns(s.callers[c], id) || id !in s.world.rows
    ensures OneOwnerEach(s.callers[c := p'])
  {
    forall d, id | d in s.callers && d != c && Owns(s.callers[d], id) ensures !Owns(p', id) {
      OthersRows(s, c, d, id);
    }
  }

  lemma OthersKept(s: System, c: nat, w': World)
    requires Safe(s) && c in s.callers && Grows(s.world, w')
    requires forall id :: id in s.world.rows && !Owns(s.callers[c], id) ==> SameSends(s.world, w', id)
    ensures forall d :: d in s.callers && d != c ==> Holds(w', s.callers[d])
  {
    forall d | d in s.callers && d != c ensures Holds(w', s.callers[d]) {
      forall id | Owns(s.callers[d], id) ensures SameSends(s.world, w', id) {
        OthersRows(s, c, d, id);
      }
      OthersUndisturbed(s.world, w', s.callers[d]);
    }
  }

  lemma WritersKept(s: System, c: nat, s': System)
    requires Safe(s) && c in s.callers && Step(s, c, s')
    ensures forall d :: d in s'.callers && MayStillRepeat(s'.callers[d]) ==> d !in s'.writers
  {
    assert MayStillRepeat(s'.callers[c]) ==> MayStillRepeat(s.callers[c]) && s'.world == s.world;
  }

  lemma CallerTurnKeeps(s: System, c: nat, s': System)
    requires Safe(s) && c in s.callers && Step(s, c, s')
    ensures Safe(s')
  {
    CallerStepKeeps(s.world, s.callers[c], s'.world, s'.callers[c]);
    OwnersKept(s, c, s'.callers[c]);
    OthersKept(s, c, s'.world);
    WritersKept(s, c, s');
  }

  lemma StepKeeps(s: System, c: nat, s': System)
    requires Safe(s) && Step(s, c, s')
    ensures Safe(s')
  {
    if c in s.callers {
      CallerTurnKeeps(s, c, s');
    } else {
      WorldStepKeeps(s.world, s'.world);
      forall d | d in s.callers ensures Holds(s'.world, s.callers[d]) {
        OthersUndisturbed(s.world, s'.world, s.callers[d]);
      }
    }
  }

  ghost predicate Run(states: seq<System>, turns: seq<nat>) {
    && |states| == |turns| + 1
    && Initial(states[0])
    && forall i :: 0 <= i < |turns| ==> Step(states[i], turns[i], states[i + 1])
  }

  lemma {:induction false} RunKeeps(states: seq<System>, turns: seq<nat>, n: nat)
    requires Run(states, turns) && n < |states|
    ensures Safe(states[n])
  {
    if n > 0 {
      RunKeeps(states, turns, n - 1);
      StepKeeps(states[n - 1], turns[n - 1], states[n]);
    }
  }

  /** Calls c and d, made with one organisation and key, were both answered as an invitation's maker. */
  ghost predicate MadeUnderOneKey(s: System, c: nat, d: nat) {
    && c in s.callers && s.callers[c].Answered? && s.callers[c].answer.Made?
    && d in s.callers && s.callers[d].Answered? && s.callers[d].answer.Made?
    && s.callers[c].req.key.Some? && s.callers[c].req.key == s.callers[d].req.key
    && s.callers[c].req.organisation == s.callers[d].req.organisation
  }

  /** For one organisation and idempotency key, whatever calls are made and however they interleave: one
      invitation at most, one email at most, and one call at most answered as its maker. */
  lemma OnePerKey(states: seq<System>, turns: seq<nat>, n: nat, i: nat, j: nat, c: nat, d: nat)
    requires Run(states, turns) && n < |states|
    ensures SameKey(states[n].world, i, j) ==> i == j && states[n].world.sends[i] <= 1
    ensures MadeUnderOneKey(states[n], c, d) ==> c == d
  {
    RunKeeps(states, turns, n);
    var s := states[n];
    assert Settled(s.world, i);
    if MadeUnderOneKey(s, c, d) {
      var i, j := s.callers[c].answer.id, s.callers[d].answer.id;
      assert Holds(s.world, s.callers[c]) && Holds(s.world, s.callers[d]);
      assert SameKey(s.world, i, j);
      assert Owns(s.callers[c], i) && Owns(s.callers[d], j);
    }
  }

  /** A call answered as a repeat has, at none of its steps, changed any invitation. */
  lemma RepeatsChangeNothing(states: seq<System>, turns: seq<nat>, n: nat, c: nat)
    requires Run(states, turns) && n < |states|
    requires c in states[n].callers && states[n].callers[c].Answered? && states[n].callers[c].answer.Repeat?
    ensures c !in states[n].writers
  {
    RunKeeps(states, turns, n);
  }

  /** A repeat answers "unknown" only after it has waited out the first call's send and record. */
  lemma RepeatWaitsForTheOutcome(states: seq<System>, turns: seq<nat>, n: nat, c: nat)
    requires Run(states, turns) && n < |states|
    requires c in states[n].callers && states[n].callers[c].Answered?
    requires states[n].callers[c].answer.Repeat? && states[n].callers[c].answer.unknown
    ensures LeasePassed(states[n].world, states[n].callers[c].answer.id)
  {
    RunKeeps(states, turns, n);
    assert Holds(states[n].world, states[n].callers[c]);
  }

  /** Whatever an answer calls made, now or before, is an invitation of the very email and role asked for. */
  lemma AnswersAreForTheRequest(states: seq<System>, turns: seq<nat>, n: nat, c: nat)
    requires Run(states, turns) && n < |states|
    requires c in states[n].callers && states[n].callers[c].Answered? && !states[n].callers[c].answer.Failed?
    ensures var rows, req, id := states[n].world.rows, states[n].callers[c].req, states[n].callers[c].answer.id;
            && id in rows && rows[id].organisation == req.organisation && rows[id].key == req.key
            && rows[id].email == req.email && rows[id].role == Some(req.role)
  {
    RunKeeps(states, turns, n);
    assert Holds(states[n].world, states[n].callers[c]);
  }

  /** A key stored for another email or role fails every call that uses it again. */
  lemma ReusedKeyFails(states: seq<System>, turns: seq<nat>, n: nat, c: nat, i: nat)
    requires Run(states, turns) && n < |states|
    requires c in states[n].callers && states[n].callers[c].Answered? && i in states[n].world.rows
    requires states[n].callers[c].req.key.Some?
    requires var row, req := states[n].world.rows[i], states[n].callers[c].req;
             && row.organisation == req.organisation && row.key == req.key
             && (row.email != req.email || row.role != Some(req.role))
    ensures states[n].callers[c].answer.Failed?
  {
    if !states[n].callers[c].answer.Failed? {
      AnswersAreForTheRequest(states, turns, n, c);
      RunKeeps(states, turns, n);
      assert SameKey(states[n].world, i, states[n].callers[c].answer.id);
      assert false;
    }
  }

  /** An invite that can be accepted. */
  predicate OpenInvite(inv: Invitation) {
    inv.role.Some? && !inv.accepted && !inv.revoked
  }

  ghost predicate OneOpenEach(w: World) {
    forall i, j :: i in w.rows && j in w.rows && OpenInvite(w.rows[i]) && OpenInvite(w.rows[j]) && i != j ==>
                     w.rows[i].organisation != w.rows[j].organisation || w.rows[i].email != w.rows[j].email
  }

  lemma OneOpenStored(w: World, req: Request, at: int, id: nat, w': World)
    requires OneOpenEach(w) && Stored(w, req, at, id, w')
    ensures OneOpenEach(w')
  {
    forall i | i in w'.rows && i != id && OpenInvite(w'.rows[i])
      ensures w'.rows[i] == w.rows[i] && (w.rows[i].organisation != req.organisation || w.rows[i].email != req.email)
    {
      assert w'.rows[i] == Replaced(w.rows[i], req);
    }
  }

  /** No invite was opened, or moved. */
  lemma NoneOpened(w: World, w': World)
    requires OneOpenEach(w) && w'.rows.Keys == w.rows.Keys
    requires forall i :: i in w.rows ==> Later(w.rows[i], w'.rows[i])
    requires forall i :: i in w.rows ==> OpenInvite(w'.rows[i]) ==> OpenInvite(w.rows[i])
    ensures OneOpenEach(w')
  {
  }

  lemma OneOpenStays(s: System, c: nat, s': System)
    requires OneOpenEach(s.world) && Step(s, c, s')
    ensures OneOpenEach(s'.world)
  {
    var w, w' := s.world, s'.world;
    if c in s.callers && s.callers[c].Creating? && w'.rows != w.rows {
      var req, at := s.callers[c].req, s.callers[c].at;
      var id :| id !in w.rows && Stored(w, req, at, id, w');
      OneOpenStored(w, req, at, id, w');
    } else {
      NoneOpened(w, w');
    }
  }

  /** An organisation has at most one open invite for an email. */
  lemma {:induction false} OneOpenInvite(states: seq<System>, turns: seq<nat>, n: nat)
    requires Run(states, turns) && n < |states|
    ensures OneOpenEach(states[n].world)
  {
    if n > 0 {
      OneOpenInvite(states, turns, n - 1);
      var s, c := states[n - 1], turns[n - 1];
      assert Step(s, c, states[n]);
      OneOpenStays(s, c, states[n]);
    }
  }

  /** A call changes no row but its own, except that storing it revokes the open invite it replaces. */
  lemma OthersAreLeftOrReplaced(s: System, c: nat, s': System, i: nat)
    requires Safe(s) && Step(s, c, s') && c in s.callers && i in s.world.rows && !Owns(s.callers[c], i)
    ensures i in s'.world.rows
    ensures var row, req := s.world.rows[i], s.callers[c].req;
            || s'.world.rows[i] == row
            || (s'.world.rows[i] == row.(revoked := true) && row.role.Some? && !row.accepted && !row.revoked
                && row.organisation == req.organisation && row.email == req.email)
  {
    assert Holds(s.world, s.callers[c]);
  }

  /** A repeat tells what its row said at some moment. */
  ghost predicate ToldAt(s: System, id: nat, emailed: bool, unknown: bool) {
    && id in s.world.rows && emailed == s.world.rows[id].emailed
    && unknown == (s.world.rows[id].startedAt.Some? && !s.world.rows[id].emailed && !s.world.rows[id].failed)
  }

  lemma {:induction false} SeenAt(states: seq<System>, turns: seq<nat>, n: nat, c: nat)
    requires Run(states, turns) && n < |states| && c in states[n].callers && states[n].callers[c].Polling?
    ensures var p := states[n].callers[c];
            exists m :: 0 <= m <= n && p.id in states[m].world.rows && states[m].world.rows[p.id] == p.seen
  {
    assert n > 0;
    assert Step(states[n - 1], turns[n - 1], states[n]);
    if states[n - 1].callers[c] == states[n].callers[c] {
      SeenAt(states, turns, n - 1, c);
    } else {
      var p := states[n].callers[c];
      assert p.id in states[n - 1].world.rows && states[n - 1].world.rows[p.id] == p.seen;
    }
  }

  /** A repeat's answer is what its row recorded at one moment. */
  lemma {:induction false} RepeatsTellTheRecord(states: seq<System>, turns: seq<nat>, n: nat, c: nat)
    requires Run(states, turns) && n < |states|
    requires c in states[n].callers && states[n].callers[c].Answered? && states[n].callers[c].answer.Repeat?
    ensures var a := states[n].callers[c].answer;
            exists m :: 0 <= m <= n && ToldAt(states[m], a.id, a.emailed, a.unknown)
  {
    assert n > 0;
    assert Step(states[n - 1], turns[n - 1], states[n]);
    if states[n - 1].callers[c] == states[n].callers[c] {
      RepeatsTellTheRecord(states, turns, n - 1, c);
    } else {
      SeenAt(states, turns, n - 1, c);
      var p, a := states[n - 1].callers[c], states[n].callers[c].answer;
      var m :| 0 <= m <= n - 1 && p.id in states[m].world.rows && states[m].world.rows[p.id] == p.seen;
      assert ToldAt(states[m], a.id, a.emailed, a.unknown);
    }
  }

  /** The maker's own answer is "emailed" only if the mail server took the message, and "unknown" only if it left it
      without an answer: without a mailer, or once refused, it is neither. */
  lemma MakersTellTheOutcome(states: seq<System>, turns: seq<nat>, n: nat, c: nat)
    requires Run(states, turns) && n < |states|
    requires c in states[n].callers && states[n].callers[c].Answered? && states[n].callers[c].answer.Made?
    ensures var w, a := states[n].world, states[n].callers[c].answer;
            && (a.emailed ==> a.id in w.took && w.sends[a.id] == 1)
            && (a.unknown ==> a.id in w.limbo && w.sends[a.id] == 1)
            && (a.id in w.refused ==> !a.emailed && !a.unknown)
  {
    RunKeeps(states, turns, n);
    assert Holds(states[n].world, states[n].callers[c]);
    assert Settled(states[n].world, states[n].callers[c].answer.id);
  }

  /** A call overtaken by a parallel one with its key becomes its repeat. */
  lemma OvertakenRepeats(w: World, req: Request, at: int, id: nat)
    requires MadeFor(w, id, req) && req.key.Some?
    ensures CallerStep(w, Creating(req, at), w, Conflicted(req))
    ensures CallerStep(w, Conflicted(req), w, Polling(req, id, w.rows[id]))
  {
    assert HasKey(w, id, req);
  }

  /** And once the row has a record, or waits for none, a repeat of the same request can be answered at once. */
  lemma RepeatCanAnswer(w: World, req: Request, id: nat)
    requires MadeFor(w, id, req) && req.key.Some?
    requires w.rows[id].startedAt.None? || w.rows[id].emailed || w.rows[id].failed
    ensures CallerStep(w, Looking(req), w, Polling(req, id, w.rows[id]))
    ensures CallerStep(w, Polling(req, id, w.rows[id]), w, Answered(req, Repeat(id, w.rows[id].emailed, false)))
  {
    assert HasKey(w, id, req);
  }

  // ---- when the outcome it waited for is final ----

  /** Sends and records end within their timeouts, and a send begins within delay of what its row says. */
  ghost predicate InTime(w: World, p: Phase, delay: nat) {
    match p
    case Sending(_, id, since) =>
      && w.now <= since + SEND_TIMEOUT
      && (id in w.rows && w.rows[id].startedAt.Some? ==> since <= w.rows[id].startedAt.value + delay)
    case Recording(_, _, _, since) => w.now <= since + RECORD_TIMEOUT
    case _ => true
  }

  ghost predicate RunInTime(states: seq<System>, turns: seq<nat>, delay: nat) {
    && Run(states, turns)
    && forall n, c :: 0 <= n < |states| && c in states[n].callers ==>
                        InTime(states[n].world, states[n].callers[c], delay)
  }

  predicate StillSettling(p: Phase, id: nat) {
    (p.Sending? || p.Recording?) && p.id == id
  }

  predicate SaysUnknown(p: Phase) {
    p.Answered? && p.answer.Repeat? && p.answer.unknown
  }

  /** Nobody is still sending, or recording what a send came to, behind a repeat's "unknown". */
  ghost predicate UnknownIsFinal(s: System) {
    forall c, d :: c in s.callers && d in s.callers && SaysUnknown(s.callers[c]) ==>
                     !StillSettling(s.callers[d], s.callers[c].answer.id)
  }

  /** A record begins once a send that was in time has ended. */
  lemma {:induction false} RecordBeganInTime(states: seq<System>, turns: seq<nat>, delay: nat, n: nat, c: nat)
    requires RunInTime(states, turns, delay) && n < |states| && c in states[n].callers
    requires states[n].callers[c].Recording?
    ensures var w, p := states[n].world, states[n].callers[c];
            && p.id in w.rows && w.rows[p.id].startedAt.Some?
            && p.since <= w.rows[p.id].startedAt.value + delay + SEND_TIMEOUT
  {
    RunKeeps(states, turns, n);
    var w, p := states[n].world, states[n].callers[c];
    assert Holds(w, p);
    if n > 0 {
      RunKeeps(states, turns, n - 1);
      var s, turn := states[n - 1], turns[n - 1];
      assert Step(s, turn, states[n]);
      assert Holds(s.world, s.callers[c]) && InTime(s.world, s.callers[c], delay);
      if turn in s.callers {
        CallerStepKeeps(s.world, s.callers[turn], w, states[n].callers[turn]);
      } else {
        WorldStepKeeps(s.world, w);
      }
      assert Later(s.world.rows[p.id], w.rows[p.id]);
      if turn != c {
        RecordBeganInTime(states, turns, delay, n - 1, c);
      }
    }
  }

  lemma InTimeIsFinal(states: seq<System>, turns: seq<nat>, delay: nat, n: nat)
    requires RunInTime(states, turns, delay) && n < |states| && delay < SPARE
    ensures UnknownIsFinal(states[n])
  {
    RunKeeps(states, turns, n);
    var s := states[n];
    forall c, d | c in s.callers && d in s.callers && SaysUnknown(s.callers[c])
      ensures !StillSettling(s.callers[d], s.callers[c].answer.id)
    {
      RepeatWaitsForTheOutcome(states, turns, n, c);
      assert InTime(s.world, s.callers[d], delay);
      if s.callers[d].Recording? {
        RecordBeganInTime(states, turns, delay, n, d);
      }
    }
  }

  const REQUEST := Request("organisation", "email", "role", Some("key"), true)

  /** Caller 0 begins its send SPARE after the time it stored and uses up both timeouts; caller 1 repeats. */
  function SlowStart(n: nat): System {
    var row := Invitation("organisation", "email", Some("role"), Some("key"), Some(0), false, false, false, false);
    var none, stored := World(map[], 0, multiset{}, {}, {}, {}), World(map[0 := row], 0, multiset{}, {}, {}, {});
    var sent := stored.(sends := multiset{0}, took := {0});
    var sending, recording := SPARE, SPARE + SEND_TIMEOUT;
    match n
    case 0 => System(none, map[0 := Looking(REQUEST), 1 := Looking(REQUEST)], {})
    case 1 => System(none, map[0 := Checking(REQUEST), 1 := Looking(REQUEST)], {})
    case 2 => System(none, map[0 := Creating(REQUEST, 0), 1 := Looking(REQUEST)], {})
    case 3 => System(stored, map[0 := Naming(REQUEST, 0), 1 := Looking(REQUEST)], {0})
    case 4 => System(stored, map[0 := Naming(REQUEST, 0), 1 := Polling(REQUEST, 0, row)], {0})
    case 5 => System(stored.(now := sending), map[0 := Naming(REQUEST, 0), 1 := Polling(REQUEST, 0, row)], {0})
    case 6 =>
      System(stored.(now := sending), map[0 := Sending(REQUEST, 0, sending), 1 := Polling(REQUEST, 0, row)], {0})
    case 7 =>
      System(stored.(now := recording), map[0 := Sending(REQUEST, 0, sending), 1 := Polling(REQUEST, 0, row)], {0})
    case 8 =>
      System(sent.(now := recording),
             map[0 := Recording(REQUEST, 0, true, recording), 1 := Polling(REQUEST, 0, row)], {0})
    case 9 =>
      System(sent.(now := SEND_LEASE),
             map[0 := Recording(REQUEST, 0, true, recording), 1 := Polling(REQUEST, 0, row)], {0})
    case _ =>
      System(sent.(now := SEND_LEASE),
             map[0 := Recording(REQUEST, 0, true, recording), 1 := Answered(REQUEST, Repeat(0, false, true))], {0})
  }

  const TURNS: seq<nat> := [0, 0, 0, 1, 2, 0, 2, 0, 2, 1]

  lemma SlowStartStores()
    ensures Step(SlowStart(2), 0, SlowStart(3))
  {
    var w, w' := SlowStart(2).world, SlowStart(3).world;
    assert Stored(w, REQUEST, 0, 0, w');
    assert CreatingStep(w, REQUEST, 0, w', Naming(REQUEST, 0));
  }

  lemma SlowStartRepeats()
    ensures Step(SlowStart(3), 1, SlowStart(4))
  {
    assert HasKey(SlowStart(3).world, 0, REQUEST);
  }

  lemma SlowStartEnds(n: nat)
    requires 4 <= n < 10
    ensures Step(SlowStart(n), TURNS[n], SlowStart(n + 1))
  {
  }

  lemma SlowStartStep(n: nat)
    requires n < 10
    ensures Step(SlowStart(n), TURNS[n], SlowStart(n + 1))
  {
    if n == 2 {
      SlowStartStores();
    } else if n == 3 {
      SlowStartRepeats();
    } else if n >= 4 {
      SlowStartEnds(n);
    }
  }

  lemma SlowStartIsNotFinal(delay: nat) returns (states: seq<System>, turns: seq<nat>)
    requires delay >= SPARE
    ensures RunInTime(states, turns, delay) && |states| == 11 && !UnknownIsFinal(states[10])
  {
    states, turns := seq(11, n requires 0 <= n => SlowStart(n)), TURNS;
    forall i | 0 <= i < |turns| ensures Step(states[i], turns[i], states[i + 1]) {
      SlowStartStep(i);
    }
    assert Run(states, turns);
    assert SaysUnknown(states[10].callers[1]) && StillSettling(states[10].callers[0], 0);
  }

  /** Behind a repeat's "unknown" nobody can still record the outcome, in every run in which sends and records
      keep their timeouts, if and only if a send begins less than the spare time after what its row says. */
  lemma UnknownIsFinalIff(delay: nat)
    ensures (forall states, turns, n :: RunInTime(states, turns, delay) && 0 <= n < |states| ==>
                                          UnknownIsFinal(states[n]))
            <==> delay < 5
  {
    if delay < SPARE {
      forall states, turns, n | RunInTime(states, turns, delay) && 0 <= n < |states| ensures UnknownIsFinal(states[n]) {
        InTimeIsFinal(states, turns, delay, n);
      }
    } else {
      var states, turns := SlowStartIsNotFinal(delay);
    }
  }

  // ---- what the answers mean ----

  /** For an invitation stored with a send to begin, "emailed" means the mail server took the message and
      a definite "not emailed" means it refused it, and never will have taken it. */
  lemma AnswersAreHonest(states: seq<System>, turns: seq<nat>, n: nat, c: nat)
    requires Run(states, turns) && n < |states|
    requires c in states[n].callers && states[n].callers[c].Answered? && !states[n].callers[c].answer.Failed?
    ensures
      var s, a := states[n], states[n].callers[c].answer;
      && a.id in s.world.rows
      && (s.world.rows[a.id].startedAt.Some? ==>
            && (a.emailed ==> a.id in s.world.took)
            && (!a.emailed && !a.unknown ==> a.id in s.world.refused && a.id !in s.world.took))
  {
    RunKeeps(states, turns, n);
    assert Holds(states[n].world, states[n].callers[c]);
    assert Settled(states[n].world, states[n].callers[c].answer.id);
  }
}
