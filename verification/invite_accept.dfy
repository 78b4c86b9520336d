/** Any number of accepts racing over links and accounts, step by step (internal/invite/invite.go,
    Accept, acceptInvite, AcceptVerified, use). A step is one call to the store, the sign-in limit or the
    password functions. A hash stands for the password it was made of, so verifying is comparing. */
module InviteAccept {
  import opened Common

  /** An open link can be used; a used, revoked or expired one cannot. A reset link names its user. */
  datatype Link = Link(email: string, reset: Option<nat>, open: bool)

  /** An account made through a provider has no password. */
  datatype User = User(id: nat, password: Option<string>)

  /** That a call set an account's password, or found the presented one to be it. */
  datatype Proof =
    | Set(caller: nat, user: nat, password: string)
    | Verified(caller: nat, user: nat, password: string)

  /** links by token hash and users by email, as the store holds them; the rest is history: every password
      an account ever had, the links used and by whom, and what calls proved. */
  datatype World = World(
    links: map<string, Link>, users: map<string, User>, nextUser: nat,
    held: set<(nat, string)>, wins: set<(string, nat)>, proofs: set<Proof>)

  /** Accept presents a password; AcceptVerified an email a provider proved. */
  datatype Call = WithPassword(token: string, password: string) | ByProvider(token: string, email: string)

  /** What the use step is asked to do. */
  datatype Credential = NewPassword(password: Option<string>) | Existing(user: nat)

  datatype Result = Refused | SignedIn(user: nat)

  /** Where one call is; tries counts the use steps that met an account made meanwhile. */
  datatype Phase =
    | Opening(call: Call)
    | Limiting(call: Call, link: Link)
    | Finding(call: Call, link: Link, tries: nat)
    | Verifying(call: Call, link: Link, tries: nat, found: User)
    | Hashing(call: Call, link: Link, tries: nat)
    | Using(call: Call, link: Link, tries: nat, credential: Credential)
    | Reading(call: Call, user: nat)
    | Done(call: Call, result: Result)

  /** attempts counts each call's use steps. */
  datatype System = System(world: World, callers: map<nat, Phase>, attempts: map<nat, nat>)

  const MIN_PASSWORD := 12

  // ---- steps ----

  ghost predicate OpeningStep(w: World, call: Call, p': Phase) {
    if call.WithPassword? && |call.password| < MIN_PASSWORD then p' == Done(call, Refused)
    else if call.token !in w.links || !w.links[call.token].open then p' == Done(call, Refused)
    else
      var link := w.links[call.token];
      match call
      case WithPassword(_, _) => p' == if link.reset.Some? then Hashing(call, link, 0) else Limiting(call, link)
      case ByProvider(_, email) =>
        p' == if link.reset.Some? || email != link.email then Done(call, Refused) else Finding(call, link, 0)
  }

  /** UserByEmail: an account with a password is verified, a provider's refused a password, a missing
      one made. */
  ghost predicate FindingStep(w: World, call: Call, link: Link, tries: nat, p': Phase) {
    if link.email !in w.users then
      p' == if call.WithPassword? then Hashing(call, link, tries) else Using(call, link, tries, NewPassword(None))
    else
      var user := w.users[link.email];
      match call
      case WithPassword(_, _) =>
        p' == if user.password.None? then Done(call, Refused) else Verifying(call, link, tries, user)
      case ByProvider(_, _) => p' == Using(call, link, tries, Existing(user.id))
  }

  ghost predicate VerifyingStep(w: World, c: nat, p: Phase, w': World, p': Phase)
    requires p.Verifying?
  {
    if p.call.WithPassword? && p.found.password == Some(p.call.password) then
      && w' == w.(proofs := w.proofs + {Verified(c, p.found.id, p.call.password)})
      && p' == Using(p.call, p.link, p.tries, Existing(p.found.id))
    else
      w' == w && p' == Done(p.call, Refused)
  }

  function Closed(w: World, token: string, c: nat): World
    requires token in w.links
  {
    w.(links := w.links[token := w.links[token].(open := false)], wins := w.wins + {(token, c)})
  }

  function WithNewPassword(w: World, c: nat, user: nat, password: Option<string>): World {
    if password.None? then w
    else w.(held := w.held + {(user, password.value)}, proofs := w.proofs + {Set(c, user, password.value)})
  }

  /** A new account takes the password, if any. */
  function WithAccount(w: World, c: nat, email: string, password: Option<string>): World {
    WithNewPassword(
      w.(users := w.users[email := User(w.nextUser, password)], nextUser := w.nextUser + 1),
      c, w.nextUser, password)
  }

  /** AcceptInvitation commits for user u: one conditional update uses the link. */
  ghost predicate Committed(w: World, c: nat, token: string, credential: Credential, w': World, u: nat) {
    && token in w.links && w.links[token].open
    && var link, used := w.links[token], Closed(w, token, c);
    if link.reset.Some? then
      // The reset guard held: the member's password is replaced.
      && credential.NewPassword? && u == link.reset.value
      && exists email :: email in w.users && w.users[email].id == u
           && w' == WithNewPassword(
                      used.(users := w.users[email := User(u, credential.password)]), c, u, credential.password)
    else if credential.Existing? then
      u == credential.user && w' == used && exists email :: email in w.users && w.users[email].id == u
    else
      link.email !in w.users && u == w.nextUser && w' == WithAccount(used, c, link.email, credential.password)
  }

  /** Using a reset link whose guard no longer holds revokes it. */
  ghost predicate GuardFailed(w: World, token: string, w': World) {
    && token in w.links && w.links[token].open && w.links[token].reset.Some?
    && w' == w.(links := w.links[token := w.links[token].(open := false)])
  }

  ghost predicate UsingStep(w: World, c: nat, p: Phase, w': World, p': Phase)
    requires p.Using?
  {
    var token := p.call.token;
    || (exists u ::
          Committed(w, c, token, p.credential, w', u) && (p' == Reading(p.call, u) || p' == Done(p.call, Refused)))
    || (GuardFailed(w, token, w') && p' == Done(p.call, Refused))
    || (w' == w && p' == Done(p.call, Refused))
    || (w' == w && p.link.reset.None? && p.credential.NewPassword? && p.link.email in w.users
        // The email's account was made meanwhile: once more as that account, then no more.
        && p' == if p.tries == 0 then Finding(p.call, p.link, 1) else Done(p.call, Refused))
  }

  /** One step of call c. Failing or dying is possible at every step. */
  ghost predicate CallerStep(w: World, c: nat, p: Phase, w': World, p': Phase) {
    || (w' == w && !p.Done? && !p.Using? && p' == Done(p.call, Refused))
    || match p
       case Opening(call) => w' == w && OpeningStep(w, call, p')
       case Limiting(call, link) => w' == w && p' == Finding(call, link, 0)
       case Finding(call, link, tries) => w' == w && FindingStep(w, call, link, tries, p')
       case Verifying(_, _, _, _) => VerifyingStep(w, c, p, w', p')
       case Hashing(call, link, tries) =>
         w' == w && call.WithPassword? && p' == Using(call, link, tries, NewPassword(Some(call.password)))
       case Using(_, _, _, _) => UsingStep(w, c, p, w', p')
       case Reading(call, u) => w' == w && p' == Done(call, SignedIn(u))
       case Done(_, _) => false
  }

  /** What happens around the calls: links are made, revoked and expire, accounts are made and deleted and
      change their passwords. No id is ever given to a second account. */
  ghost predicate WorldStep(w: World, w': World) {
    && (forall t :: t in w.links ==>
          t in w'.links && (w'.links[t] == w.links[t] || w'.links[t] == w.links[t].(open := false)))
    && w'.nextUser >= w.nextUser && DistinctUsers(w')
    && (forall e :: e in w'.users ==> w'.users[e].id >= w.nextUser || (e in w.users && w.users[e].id == w'.users[e].id))
    && w.held <= w'.held && PasswordsHeld(w')
    && w'.wins == w.wins && w'.proofs == w.proofs
  }

  // ---- what every step keeps ----

  ghost predicate DistinctUsers(w: World) {
    && (forall e :: e in w.users ==> w.users[e].id < w.nextUser)
    && (forall e, f :: e in w.users && f in w.users && w.users[e].id == w.users[f].id ==> e == f)
  }

  ghost predicate PasswordsHeld(w: World) {
    forall e :: e in w.users && w.users[e].password.Some? ==> (w.users[e].id, w.users[e].password.value) in w.held
  }

  ghost predicate WonOnce(w: World) {
    && (forall t, c :: (t, c) in w.wins ==> t in w.links && !w.links[t].open)
    && (forall t, c, d :: (t, c) in w.wins && (t, d) in w.wins ==> c == d)
  }

  ghost predicate ProofsHold(w: World) {
    forall x :: x in w.proofs ==> (x.user, x.password) in w.held
  }

  ghost predicate Sound(w: World) {
    DistinctUsers(w) && PasswordsHeld(w) && WonOnce(w) && ProofsHold(w)
  }

  /** The call presented a password long enough for it to be set, or the email a provider proved, which is the
      link's, and the link is no reset link. */
  ghost predicate Fits(call: Call, link: Link) {
    match call
    case WithPassword(_, password) => |password| >= 12
    case ByProvider(_, email) => email == link.email && link.reset.None?
  }

  /** What a call read of its link is still so, but for its being open. */
  ghost predicate Knows(w: World, call: Call, link: Link) {
    && call.token in w.links && Fits(call, link)
    && w.links[call.token].email == link.email && w.links[call.token].reset == link.reset
  }

  /** No account but that of this email has, or will ever have, the id. */
  ghost predicate OnlyAt(w: World, user: nat, email: string) {
    user < w.nextUser && forall e :: e in w.users && w.users[e].id == user ==> e == email
  }

  /** Call c may sign in as user: a provider proved its email, or c set or verified its password. */
  ghost predicate Proved(w: World, c: nat, call: Call, user: nat) {
    call.WithPassword? ==> Set(c, user, call.password) in w.proofs || Verified(c, user, call.password) in w.proofs
  }

  /** The credential is for the link's own account, or for one to be made or reset. */
  ghost predicate Suits(w: World, c: nat, call: Call, link: Link, credential: Credential) {
    match credential
    case Existing(user) => Proved(w, c, call, user) && OnlyAt(w, user, link.email) && link.reset.None?
    case NewPassword(password) => password == if call.WithPassword? then Some(call.password) else None
  }

  ghost predicate Holds(w: World, c: nat, p: Phase, attempts: nat) {
    match p
    case Opening(_) => attempts == 0
    case Limiting(call, link) => attempts == 0 && Knows(w, call, link) && link.reset.None?
    case Finding(call, link, tries) => tries <= 1 && attempts == tries && Knows(w, call, link) && link.reset.None?
    case Verifying(call, link, tries, user) =>
      && tries <= 1 && attempts == tries && (user.password.Some? ==> (user.id, user.password.value) in w.held)
      && Knows(w, call, link) && link.reset.None? && OnlyAt(w, user.id, link.email)
    case Hashing(call, link, tries) => tries <= 1 && attempts == tries && call.WithPassword? && Knows(w, call, link)
    case Using(call, link, tries, credential) =>
      tries <= 1 && attempts == tries && Knows(w, call, link) && Suits(w, c, call, link, credential)
    case Reading(call, user) => attempts <= 2 && (call.token, c) in w.wins && Proved(w, c, call, user)
    case Done(call, SignedIn(user)) => attempts <= 2 && (call.token, c) in w.wins && Proved(w, c, call, user)
    case Done(_, Refused) => attempts <= 2
  }

  ghost predicate Grows(w: World, w': World) {
    && w.held <= w'.held && w.wins <= w'.wins && w.proofs <= w'.proofs
    && w.nextUser <= w'.nextUser
    && (forall t :: t in w.links ==>
          t in w'.links && w'.links[t].email == w.links[t].email && w'.links[t].reset == w.links[t].reset)
    && (forall e :: e in w'.users && w'.users[e].id < w.nextUser ==> e in w.users && w.users[e].id == w'.users[e].id)
  }

  lemma ClosedKeeps(w: World, c: nat, token: string)
    requires Sound(w) && token in w.links && w.links[token].open
    ensures Sound(Closed(w, token, c)) && Grows(w, Closed(w, token, c))
  {
    assert WonOnce(Closed(w, token, c));
  }

  /** Account email has id u, and takes the password. */
  lemma PasswordKeeps(w: World, c: nat, email: string, u: nat, password: Option<string>)
    requires Sound(w)
    requires if email in w.users then w.users[email].id == u else u == w.nextUser
    ensures
      var n := if u == w.nextUser then u + 1 else w.nextUser;
      var w' := WithNewPassword(w.(users := w.users[email := User(u, password)], nextUser := n), c, u, password);
      Sound(w') && Grows(w, w')
  {
  }

  lemma CommittedKeeps(w: World, c: nat, p: Phase, w': World, u: nat)
    requires Sound(w) && p.Using? && Holds(w, c, p, p.tries) && Committed(w, c, p.call.token, p.credential, w', u)
    ensures Sound(w') && Grows(w, w') && (p.call.token, c) in w'.wins && Proved(w', c, p.call, u)
  {
    var link, used := w.links[p.call.token], Closed(w, p.call.token, c);
    ClosedKeeps(w, c, p.call.token);
    if link.reset.Some? {
      var email :| email in w.users && w.users[email].id == u
        && w' == WithNewPassword(
                   used.(users := w.users[email := User(u, p.credential.password)]), c, u, p.credential.password);
      PasswordKeeps(used, c, email, u, p.credential.password);
    } else if p.credential.NewPassword? {
      PasswordKeeps(used, c, link.email, u, p.credential.password);
    }
  }

  lemma CallerStepKeeps(w: World, c: nat, p: Phase, w': World, p': Phase, attempts: nat)
    requires Sound(w) && Holds(w, c, p, attempts) && CallerStep(w, c, p, w', p')
    ensures Sound(w') && Grows(w, w')
    ensures Holds(w', c, p', if p.Using? then attempts + 1 else attempts)
  {
    if p.Using? {
      if u :| && Committed(w, c, p.call.token, p.credential, w', u)
              && (p' == Reading(p.call, u) || p' == Done(p.call, Refused)) {
        CommittedKeeps(w, c, p, w', u);
      }
    }
  }

  lemma OthersUndisturbed(w: World, w': World, c: nat, p: Phase, attempts: nat)
    requires Grows(w, w') && Holds(w, c, p, attempts)
    ensures Holds(w', c, p, attempts)
  {
  }

  // ---- whole runs ----

  ghost predicate Safe(s: System) {
    && Sound(s.world) && s.attempts.Keys == s.callers.Keys
    && forall c :: c in s.callers ==> Holds(s.world, c, s.callers[c], s.attempts[c])
  }

  ghost predicate Initial(s: System) {
    && DistinctUsers(s.world) && PasswordsHeld(s.world) && s.world.wins == {} && s.world.proofs == {}
    && s.attempts.Keys == s.callers.Keys
    && forall c :: c in s.callers ==> s.callers[c].Opening? && s.attempts[c] == 0
  }

  /** Caller c takes a step; with c no caller, the world does. */
  ghost predicate Step(s: System, c: nat, s': System) {
    if c in s.callers then
      && c in s'.callers && c in s.attempts
      && CallerStep(s.world, c, s.callers[c], s'.world, s'.callers[c])
      && s'.callers == s.callers[c := s'.callers[c]]
      && s'.attempts == s.attempts[c := s.attempts[c] + if s.callers[c].Using? then 1 else 0]
    else
      WorldStep(s.world, s'.world) && s'.callers == s.callers && s'.attempts == s.attempts
  }

  lemma StepKeeps(s: System, c: nat, s': System)
    requires Safe(s) && Step(s, c, s')
    ensures Safe(s')
  {
    if c in s.callers {
      CallerStepKeeps(s.world, c, s.callers[c], s'.world, s'.callers[c], s.attempts[c]);
    }
    forall d | d in s.callers && d != c ensures Holds(s'.world, d, s'.callers[d], s'.attempts[d]) {
      OthersUndisturbed(s.world, s'.world, d, s.callers[d], s.attempts[d]);
    }
  }

  ghost predicate Run(states: seq<System>, turns: seq<nat>) {
    && |states| == |turns| + 1
    && Initial(states[0])
    && forall i :: 0 <= i < |turns| ==> Step(states[i], turns[i], states[i + 1])
  }

  lemma {:induction false} RunKeeps(states: seq<System>, turns: seq<nat>, n: nat)
    requires Run(states, turns) && n < |states|
    ensures Safe(states[n])
  {
    if n > 0 {
      RunKeeps(states, turns, n - 1);
      StepKeeps(states[n - 1], turns[n - 1], states[n]);
    }
  }

  ghost predicate SignedInWith(s: System, c: nat, token: string) {
    c in s.callers && s.callers[c].Done? && s.callers[c].result.SignedIn? && s.callers[c].call.token == token
  }

  /** However accepts race: a link signs in one call at most, and no call tries to use it more than twice. */
  lemma LinkSucceedsOnce(states: seq<System>, turns: seq<nat>, n: nat, token: string, c: nat, d: nat)
    requires Run(states, turns) && n < |states|
    ensures SignedInWith(states[n], c, token) && SignedInWith(states[n], d, token) ==> c == d
    ensures c in states[n].attempts ==> states[n].attempts[c] <= 2
  {
    RunKeeps(states, turns, n);
    if c in states[n].callers {
      assert Holds(states[n].world, c, states[n].callers[c], states[n].attempts[c]);
    }
    if d in states[n].callers {
      assert Holds(states[n].world, d, states[n].callers[d], states[n].attempts[d]);
    }
  }

  /** A call that signs in with a password set it on that very account, or verified that it was the
      account's; either way the account did have that password. */
  lemma PasswordWasProved(states: seq<System>, turns: seq<nat>, n: nat, c: nat)
    requires Run(states, turns) && n < |states| && c in states[n].callers
    requires states[n].callers[c].Done? && states[n].callers[c].result.SignedIn?
    requires states[n].callers[c].call.WithPassword?
    ensures
      var w, user, password := states[n].world, states[n].callers[c].result.user, states[n].callers[c].call.password;
      && (Set(c, user, password) in w.proofs || Verified(c, user, password) in w.proofs)
      && (user, password) in w.held
  {
    RunKeeps(states, turns, n);
    assert Holds(states[n].world, c, states[n].callers[c], states[n].attempts[c]);
  }

  // ---- whose account a call signs in ----

  /** One step used the call's link, for this account: that of the email an invite link invites, which is the
      email a provider proved, or the one a reset link names. */
  ghost predicate UsedFor(w: World, w': World, call: Call, user: nat) {
    && call.token in w.links && w.links[call.token].open
    && call.token in w'.links && !w'.links[call.token].open
    && var email, reset := w.links[call.token].email, w.links[call.token].reset;
    && (reset.None? ==> email in w'.users && w'.users[email].id == user)
    && (reset.Some? ==> reset.value == user)
    && (call.ByProvider? ==> reset.None? && call.email == email)
    && (call.WithPassword? ==> |call.password| >= 12)
  }

  /** An invite link leaves every account as it is, and a new one has the password presented, or none for a
      provider's; a reset link gives its account the password, and leaves the others. */
  ghost predicate ChangedFor(w: World, w': World, call: Call, user: nat)
    requires call.token in w.links
  {
    var email, reset := w.links[call.token].email, w.links[call.token].reset;
    && (forall e :: e in w.users && (reset.None? || w.users[e].id != user) ==>
          e in w'.users && w'.users[e] == w.users[e])
    && (forall e :: e in w'.users && e !in w.users ==>
          reset.None? && e == email
          && w'.users[e].password == if call.WithPassword? then Some(call.password) else None)
    && (forall e :: reset.Some? && e in w'.users && w'.users[e].id == user ==>
          call.WithPassword? && w'.users[e].password == Some(call.password))
  }

  lemma CommittedIsForTheLinks(w: World, c: nat, p: Phase, w': World, u: nat)
    requires Sound(w) && p.Using? && Holds(w, c, p, p.tries) && Committed(w, c, p.call.token, p.credential, w', u)
    ensures UsedFor(w, w', p.call, u) && ChangedFor(w, w', p.call, u)
  {
  }

  ghost predicate SigningIn(p: Phase, call: Call, user: nat) {
    p == Reading(call, user) || p == Done(call, SignedIn(user))
  }

  lemma TurnSigningIn(s: System, turn: nat, s': System, c: nat, call: Call, user: nat)
    requires Safe(s) && Step(s, turn, s') && c in s.callers && c in s'.callers
    requires SigningIn(s'.callers[c], call, user) && !SigningIn(s.callers[c], call, user)
    ensures turn == c && UsedFor(s.world, s'.world, call, user) && ChangedFor(s.world, s'.world, call, user)
  {
    var p := s.callers[c];
    assert turn == c && p.Using?;
    var u :| Committed(s.world, c, p.call.token, p.credential, s'.world, u)
             && (s'.callers[c] == Reading(p.call, u) || s'.callers[c] == Done(p.call, Refused));
    assert Holds(s.world, c, p, s.attempts[c]);
    CommittedIsForTheLinks(s.world, c, p, s'.world, u);
  }

  /** At step i of a run, call c used its link for this account. */
  ghost predicate UsedAt(states: seq<System>, turns: seq<nat>, i: nat, c: nat, call: Call, user: nat)
    requires |states| == |turns| + 1 && i < |turns|
  {
    && turns[i] == c
    && UsedFor(states[i].world, states[i + 1].world, call, user)
    && ChangedFor(states[i].world, states[i + 1].world, call, user)
  }

  lemma {:induction false} SigningInUsed(states: seq<System>, turns: seq<nat>, n: nat, c: nat, call: Call, user: nat)
    requires Run(states, turns) && n < |states|
    requires c in states[n].callers && SigningIn(states[n].callers[c], call, user)
    ensures exists i :: 0 <= i < n && UsedAt(states, turns, i, c, call, user)
  {
    assert n > 0;
    assert Step(states[n - 1], turns[n - 1], states[n]);
    if SigningIn(states[n - 1].callers[c], call, user) {
      SigningInUsed(states, turns, n - 1, c, call, user);
    } else {
      RunKeeps(states, turns, n - 1);
      TurnSigningIn(states[n - 1], turns[n - 1], states[n], c, call, user);
      assert UsedAt(states, turns, n - 1, c, call, user);
    }
  }

  /** A call that signs in used its link at one of its own steps, for the account it signs in: on an invite link
      that of the invited email, which a provider must have proved. */
  lemma SignsInTheInvited(states: seq<System>, turns: seq<nat>, n: nat, c: nat)
    requires Run(states, turns) && n < |states| && c in states[n].callers
    requires states[n].callers[c].Done? && states[n].callers[c].result.SignedIn?
    ensures exists i :: 0 <= i < n
                        && UsedAt(states, turns, i, c, states[n].callers[c].call, states[n].callers[c].result.user)
  {
    SigningInUsed(states, turns, n, c, states[n].callers[c].call, states[n].callers[c].result.user);
  }

  /** A call closes no link but its own, and that only by using it or, for a reset link, by failing its guard; it
      opens none. */
  lemma OnlyUseCloses(s: System, c: nat, s': System, token: string)
    requires Safe(s) && Step(s, c, s') && c in s.callers && token in s.world.links
    ensures token in s'.world.links
    ensures s'.world.links[token] == s.world.links[token].(open := s'.world.links[token].open)
    ensures s'.world.links[token].open ==> s.world.links[token].open
    ensures s.world.links[token].open && !s'.world.links[token].open ==>
              && token == s.callers[c].call.token
              && ((token, c) in s'.world.wins || (s.world.links[token].reset.Some? && s'.callers[c].Done?))
  {
  }

  /** A reset link whose guard fails can be revoked by the call that met it, which is refused. */
  lemma GuardRevokes(w: World, c: nat, p: Phase)
    requires p.Using? && p.call.token in w.links && w.links[p.call.token].open && w.links[p.call.token].reset.Some?
    ensures exists w' :: CallerStep(w, c, p, w', Done(p.call, Refused))
                         && p.call.token in w'.links && !w'.links[p.call.token].open
                         && w'.users == w.users && w'.wins == w.wins
  {
    var token := p.call.token;
    var w' := w.(links := w.links[token := w.links[token].(open := false)]);
    assert UsingStep(w, c, p, w', Done(p.call, Refused));
  }

  // ---- who can sign in ----

  /** Some steps of call c lead from here to its being signed in. */
  ghost predicate CanSignIn(w: World, c: nat, p: Phase, steps: nat)
    decreases steps
  {
    || (p.Done? && p.result.SignedIn?)
    || (steps > 0 && exists w', p' :: CallerStep(w, c, p, w', p') && CanSignIn(w', c, p', steps - 1))
  }

  /** The invited person: whom a provider proved to be, who has no account yet, or who knows its password; and
      whoever a reset link was made for. */
  ghost predicate Entitled(w: World, call: Call) {
    && call.token in w.links && w.links[call.token].open
    && var email, reset := w.links[call.token].email, w.links[call.token].reset;
    && (call.ByProvider? ==> reset.None? && call.email == email)
    && (call.WithPassword? ==> |call.password| >= 12)
    && (call.WithPassword? && reset.None? && email in w.users ==> w.users[email].password == Some(call.password))
    && (reset.Some? ==> exists e :: e in w.users && w.users[e].id == reset.value)
  }

  lemma OneStepOn(w: World, c: nat, p: Phase, w': World, p': Phase, steps: nat)
    requires CallerStep(w, c, p, w', p') && CanSignIn(w', c, p', steps)
    ensures CanSignIn(w, c, p, steps + 1)
  {
  }

  lemma CommitSignsIn(w: World, c: nat, p: Phase, w': World, u: nat)
    requires p.Using? && Committed(w, c, p.call.token, p.credential, w', u)
    ensures CanSignIn(w, c, p, 2)
  {
    var done: nat := 0;
    assert CanSignIn(w', c, Done(p.call, SignedIn(u)), done);
    OneStepOn(w', c, Reading(p.call, u), w', Done(p.call, SignedIn(u)), done);
    OneStepOn(w, c, p, w', Reading(p.call, u), 1);
  }

  lemma NewAccountSignsIn(w: World, c: nat, call: Call, link: Link, password: Option<string>)
    requires Entitled(w, call) && link == w.links[call.token] && link.reset.None? && link.email !in w.users
    ensures CanSignIn(w, c, Using(call, link, 0, NewPassword(password)), 2)
  {
    var w' := WithAccount(Closed(w, call.token, c), c, link.email, password);
    CommitSignsIn(w, c, Using(call, link, 0, NewPassword(password)), w', w.nextUser);
  }

  lemma ExistingAccountSignsIn(w: World, c: nat, call: Call, link: Link, tries: nat, user: nat)
    requires call.token in w.links && w.links[call.token].open
    requires link == w.links[call.token] && link.reset.None?
    requires link.email in w.users && w.users[link.email].id == user
    ensures CanSignIn(w, c, Using(call, link, tries, Existing(user)), 2)
  {
    CommitSignsIn(w, c, Using(call, link, tries, Existing(user)), Closed(w, call.token, c), user);
  }

  lemma ResetSignsIn(w: World, c: nat, call: Call, link: Link)
    requires Entitled(w, call) && link == w.links[call.token] && link.reset.Some?
    ensures CanSignIn(w, c, Hashing(call, link, 0), 3)
  {
    var u, credential := link.reset.value, NewPassword(Some(call.password));
    var used := Closed(w, call.token, c);
    var email :| email in w.users && w.users[email].id == u;
    var password := Some(call.password);
    var w' := WithNewPassword(used.(users := w.users[email := User(u, password)]), c, u, password);
    assert Committed(w, c, call.token, credential, w', u);
    CommitSignsIn(w, c, Using(call, link, 0, credential), w', u);
    OneStepOn(w, c, Hashing(call, link, 0), w, Using(call, link, 0, credential), 2);
  }

  lemma OwnerSignsIn(w: World, c: nat, call: Call, link: Link, tries: nat)
    requires Entitled(w, call) && link == w.links[call.token] && link.reset.None? && link.email in w.users
    ensures CanSignIn(w, c, Finding(call, link, tries), 4)
  {
    var p, user := Finding(call, link, tries), w.users[link.email];
    var using := Using(call, link, tries, Existing(user.id));
    if call.WithPassword? {
      var w' := w.(proofs := w.proofs + {Verified(c, user.id, call.password)});
      ExistingAccountSignsIn(w', c, call, link, tries, user.id);
      OneStepOn(w, c, Verifying(call, link, tries, user), w', using, 2);
      OneStepOn(w, c, p, w, Verifying(call, link, tries, user), 3);
    } else {
      ExistingAccountSignsIn(w, c, call, link, tries, user.id);
      OneStepOn(w, c, p, w, using, 2);
      Later(w, c, p, 3);
    }
  }

  lemma NewcomerSignsIn(w: World, c: nat, call: Call, link: Link)
    requires Entitled(w, call) && link == w.links[call.token] && link.reset.None? && link.email !in w.users
    ensures CanSignIn(w, c, Finding(call, link, 0), 4)
  {
    var p, password := Finding(call, link, 0), if call.WithPassword? then Some(call.password) else None;
    var using := Using(call, link, 0, NewPassword(password));
    NewAccountSignsIn(w, c, call, link, password);
    if call.WithPassword? {
      OneStepOn(w, c, Hashing(call, link, 0), w, using, 2);
      OneStepOn(w, c, p, w, Hashing(call, link, 0), 3);
    } else {
      OneStepOn(w, c, p, w, using, 2);
      Later(w, c, p, 3);
    }
  }

  /** So does one who was about to make the account when a parallel accept made it, as that account. */
  lemma OvertakenSignsIn(w: World, c: nat, call: Call, link: Link, password: Option<string>)
    requires Entitled(w, call) && link == w.links[call.token] && link.reset.None? && link.email in w.users
    ensures CanSignIn(w, c, Using(call, link, 0, NewPassword(password)), 5)
  {
    OwnerSignsIn(w, c, call, link, 1);
    OneStepOn(w, c, Using(call, link, 0, NewPassword(password)), w, Finding(call, link, 1), 4);
  }

  lemma {:induction false} Later(w: World, c: nat, p: Phase, steps: nat)
    requires CanSignIn(w, c, p, steps)
    ensures CanSignIn(w, c, p, steps + 1)
    decreases steps
  {
    if !(p.Done? && p.result.SignedIn?) {
      var w', p' :| CallerStep(w, c, p, w', p') && CanSignIn(w', c, p', steps - 1);
      Later(w', c, p', steps - 1);
      OneStepOn(w, c, p, w', p', steps);
    }
  }

  /** An open link lets in everyone it is for, when no store call fails. */
  lemma EntitledCanSignIn(w: World, c: nat, call: Call)
    requires Entitled(w, call)
    ensures exists steps :: CanSignIn(w, c, Opening(call), steps)
  {
    var link := w.links[call.token];
    if link.reset.Some? {
      ResetSignsIn(w, c, call, link);
      OneStepOn(w, c, Opening(call), w, Hashing(call, link, 0), 3);
    } else {
      if link.email in w.users {
        OwnerSignsIn(w, c, call, link, 0);
      } else {
        NewcomerSignsIn(w, c, call, link);
      }
      if call.WithPassword? {
        OneStepOn(w, c, Limiting(call, link), w, Finding(call, link, 0), 4);
        OneStepOn(w, c, Opening(call), w, Limiting(call, link), 5);
      } else {
        OneStepOn(w, c, Opening(call), w, Finding(call, link, 0), 4);
      }
    }
  }
}
