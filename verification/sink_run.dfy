/** Any number of sink workers on one stream, step by step (internal/sink/sink.go, Run and store).
    A step is one call to the stream, the event store or the joiner. Any call may fail with or without
    having taken effect, any entry not acknowledged may be delivered again to any worker, and any worker
    may stop at any step. */
module SinkRun {
  import opened SinkRows

  /** An entry of the stream, by its id: one whose envelope could not be read, or the key of its row and
      whether the joiner and the event store take that row. */
  datatype Entry = Undecodable | Decoded(key: Key, joins: bool, stores: bool)

  type Log = map<string, Entry>

  /** What the workers share. marked holds the keys Joiner.Stored was told about while their rows were in
      the event store. */
  datatype Shared = Shared(acked: set<string>, dead: set<string>, stored: set<Key>, marked: set<Key>)

  /** Where one worker is in store(). ids are the entries to acknowledge; todo is the stack of batches
      the bisection still has to try, joined the rows it kept so far. */
  datatype Phase =
    | Idle
    | Sorting(todo: seq<string>, ids: seq<string>)
    | Finding(ids: seq<string>)
    | Joining(ids: seq<string>, batches: seq<seq<string>>, joined: seq<string>, known: set<Key>)
    | JoinRefused(ids: seq<string>, batches: seq<seq<string>>, joined: seq<string>, known: set<Key>, id: string)
    | Inserting(ids: seq<string>, batches: seq<seq<string>>, joined: seq<string>)
    | InsertRefused(ids: seq<string>, batches: seq<seq<string>>, joined: seq<string>, id: string)
    | Marking(ids: seq<string>, joined: seq<string>)
    | Acking(ids: seq<string>)

  datatype Cluster = Cluster(shared: Shared, workers: map<nat, Phase>)

  predicate AllDecoded(log: Log, ids: seq<string>) {
    forall id :: id in ids ==> id in log && log[id].Decoded?
  }

  /** The key of an entry's row. */
  function KeyIn(log: Log): string -> Key {
    (id: string) => if id in log && log[id].Decoded? then log[id].key else Key("", "", "", "")
  }

  predicate AllJoin(log: Log, ids: seq<string>) {
    forall id :: id in ids ==> id in log && log[id].Decoded? && log[id].joins
  }

  predicate AllStore(log: Log, ids: seq<string>) {
    forall id :: id in ids ==> id in log && log[id].Decoded? && log[id].stores
  }

  /** Joiner or event store will not have the entry's row. */
  predicate Refused(log: Log, id: string) {
    id in log && log[id].Decoded? && !(log[id].joins && log[id].stores)
  }

  predicate Accepted(log: Log, id: string) {
    id in log && log[id].Decoded? && log[id].joins && log[id].stores
  }

  function Flat(batches: seq<seq<string>>): seq<string> {
    if batches == [] then [] else batches[0] + Flat(batches[1..])
  }

  /** The keys that have an entry on the dead-letter stream. */
  function DeadKeys(log: Log, g: Shared): set<Key> {
    set id | id in g.dead && id in log && log[id].Decoded? :: log[id].key
  }

  // ---- steps ----

  /** A store call on rows took effect, or it did not; a refused row stores nothing. */
  predicate MaybeStored(log: Log, g: Shared, g': Shared, ids: seq<string>) {
    g' == g || (AllStore(log, ids) && g' == g.(stored := g.stored + Keys(ids, KeyIn(log))))
  }

  /** One attempt to move an entry: appended to the dead-letter stream, perhaps acknowledged after. */
  predicate MaybeMoved(g: Shared, g': Shared, id: string) {
    || g' == g
    || g' == g.(dead := g.dead + {id})
    || g' == g.(dead := g.dead + {id}, acked := g.acked + {id})
  }

  predicate Moved(g: Shared, g': Shared, id: string) {
    g' == g.(dead := g.dead + {id}, acked := g.acked + {id})
  }

  /** The first batch is replaced by its halves. */
  predicate Halved(batches: seq<seq<string>>, batches': seq<seq<string>>)
    requires batches != []
  {
    var half := |batches[0]| / 2;
    |batches[0]| > 1 && batches' == [batches[0][..half], batches[0][half..]] + batches[1..]
  }

  predicate SortingStep(log: Log, g: Shared, p: Phase, g': Shared, p': Phase)
    requires p.Sorting?
  {
    if p.todo == [] then
      g' == g && p' == if p.ids == [] then Idle else Finding(p.ids)
    else
      var id := p.todo[0];
      if id in log && log[id].Decoded? then
        g' == g && p' == Sorting(p.todo[1..], p.ids + [id])
      else
        // A failed move is tried again, or given up when the worker is stopping; the loop goes on.
        MaybeMoved(g, g', id) && (p' == p || p' == Sorting(p.todo[1..], p.ids))
  }

  predicate FindingStep(log: Log, g: Shared, p: Phase, g': Shared, p': Phase)
    requires p.Finding?
  {
    && g' == g
    && (p' == p
        || p' == Joining(p.ids, [FirstOfEachKey(p.ids, KeyIn(log))], [], Keys(p.ids, KeyIn(log)) * g.stored))
  }

  predicate JoiningStep(log: Log, g: Shared, p: Phase, g': Shared, p': Phase)
    requires p.Joining?
  {
    && g' == g
    && if p.batches == [] then
        && p'.Inserting? && p'.ids == p.ids && p'.joined == p.joined
        && Flat(p'.batches) == Unknown(p.joined, KeyIn(log), p.known)
      else
        || p' == p
        || if AllJoin(log, p.batches[0]) then p' == Joining(p.ids, p.batches[1..], p.joined + p.batches[0], p.known)
           else if |p.batches[0]| == 1 then
             p' == JoinRefused(p.ids, p.batches[1..], p.joined, p.known, p.batches[0][0])
           else
             p'.Joining? && p' == Joining(p.ids, p'.batches, p.joined, p.known) && Halved(p.batches, p'.batches)
  }

  predicate InsertingStep(log: Log, g: Shared, p: Phase, g': Shared, p': Phase)
    requires p.Inserting?
  {
    if p.batches == [] then
      g' == g && p' == Marking(p.ids, p.joined)
    else
      || (MaybeStored(log, g, g', p.batches[0]) && p' == p)
      || (AllStore(log, p.batches[0]) && g' == g.(stored := g.stored + Keys(p.batches[0], KeyIn(log)))
          && p' == Inserting(p.ids, p.batches[1..], p.joined))
      || (MaybeStored(log, g, g', p.batches[0]) && p'.Inserting?
          && p' == Inserting(p.ids, p'.batches, p.joined) && Halved(p.batches, p'.batches))
      || (g' == g && |p.batches[0]| == 1 && !AllStore(log, p.batches[0])
          && p' == InsertRefused(p.ids, p.batches[1..], p.joined, p.batches[0][0]))
  }

  /** One step of one worker from phase p. Stopping, by cancellation or crash, is possible anywhere. */
  predicate WorkerStep(log: Log, g: Shared, p: Phase, g': Shared, p': Phase) {
    || (g' == g && p' == Idle)
    || match p
       case Idle =>
         // Read or Claim: entries nobody has acknowledged, whoever else holds them.
         g' == g && p'.Sorting? && p'.ids == [] && forall id :: id in p'.todo ==> id in log && id !in g.acked
       case Sorting(_, _) => SortingStep(log, g, p, g', p')
       case Finding(_) => FindingStep(log, g, p, g', p')
       case Joining(_, _, _, _) => JoiningStep(log, g, p, g', p')
       case JoinRefused(ids, batches, joined, known, id) =>
         || (MaybeMoved(g, g', id) && p' == p)
         || (Moved(g, g', id) && p' == Joining(ids, batches, joined, known))
       case Inserting(_, _, _) => InsertingStep(log, g, p, g', p')
       case InsertRefused(ids, batches, joined, id) =>
         || (MaybeMoved(g, g', id) && p' == p)
         || (Moved(g, g', id) && p' == Inserting(ids, batches, joined))
       case Marking(ids, joined) =>
         // Stored is told about every joined row; what it may count as marked are those in the store.
         || (g' == g && p' == p)
         || (g' == g.(marked := g.marked + Keys(joined, KeyIn(log)) * g.stored) && (p' == p || p' == Acking(ids)))
       case Acking(ids) =>
         || (g' == g && p' == p)
         || (g' == g.(acked := g.acked + set id | id in ids) && (p' == p || p' == Idle))
  }

  // ---- what every step keeps ----

  predicate Covered(log: Log, ids: seq<string>, keys: set<Key>) {
    AllDecoded(log, ids) && Keys(ids, KeyIn(log)) <= keys
  }

  /** What a worker in phase p relies on. */
  predicate Holds(log: Log, g: Shared, p: Phase) {
    match p
    case Idle => true
    case Sorting(_, ids) => AllDecoded(log, ids)
    case Finding(ids) => AllDecoded(log, ids)
    case Joining(ids, batches, joined, known) =>
      && AllDecoded(log, Flat(batches)) && AllJoin(log, joined) && known <= g.stored
      && Covered(log, ids, Keys(Flat(batches), KeyIn(log)) + Keys(joined, KeyIn(log)) + DeadKeys(log, g))
    case JoinRefused(ids, batches, joined, known, id) =>
      && AllDecoded(log, Flat(batches)) && AllJoin(log, joined) && known <= g.stored && Refused(log, id)
      && Covered(log, ids, Keys(Flat(batches), KeyIn(log)) + Keys(joined, KeyIn(log)) + DeadKeys(log, g)
                           + {log[id].key})
    case Inserting(ids, batches, joined) =>
      && AllJoin(log, Flat(batches)) && AllJoin(log, joined)
      && Covered(log, ids, Keys(joined, KeyIn(log)) + DeadKeys(log, g))
      && Covered(log, joined, g.stored + Keys(Flat(batches), KeyIn(log)) + DeadKeys(log, g))
    case InsertRefused(ids, batches, joined, id) =>
      && AllJoin(log, Flat(batches)) && AllJoin(log, joined) && Refused(log, id)
      && Covered(log, ids, Keys(joined, KeyIn(log)) + DeadKeys(log, g))
      && Covered(log, joined, g.stored + Keys(Flat(batches), KeyIn(log)) + DeadKeys(log, g) + {log[id].key})
    case Marking(ids, joined) =>
      && AllJoin(log, joined)
      && Covered(log, ids, Keys(joined, KeyIn(log)) + DeadKeys(log, g))
      && Covered(log, joined, g.stored + DeadKeys(log, g))
    case Acking(ids) => Covered(log, ids, g.marked + DeadKeys(log, g))
  }

  /** Every acknowledged entry is itself on the dead-letter stream, or an entry with its key is, or its
      row is stored and its call was marked stale after that. */
  predicate NothingLost(log: Log, g: Shared) {
    && g.marked <= g.stored
    && forall id :: id in g.acked ==>
         id in g.dead || (id in log && log[id].Decoded? && log[id].key in g.marked + DeadKeys(log, g))
  }

  /** Only entries that could not be read or were refused are dead-lettered, and only keys with an accepted
      entry are stored. */
  ghost predicate Deserved(log: Log, g: Shared) {
    && (forall id :: id in g.dead ==> id !in log || log[id].Undecodable? || Refused(log, id))
    && (forall k :: k in g.stored ==> HasAccepted(log, k))
  }

  ghost predicate HasAccepted(log: Log, k: Key) {
    exists id :: Accepted(log, id) && log[id].key == k
  }

  ghost predicate Kept(log: Log, g: Shared) {
    NothingLost(log, g) && Deserved(log, g)
  }

  predicate Grows(g: Shared, g': Shared) {
    g.acked <= g'.acked && g.dead <= g'.dead && g.stored <= g'.stored && g.marked <= g'.marked
  }

  lemma {:induction false} OthersUndisturbed(log: Log, g: Shared, g': Shared, p: Phase)
    requires Grows(g, g') && Holds(log, g, p)
    ensures Holds(log, g', p)
  {
    assert DeadKeys(log, g) <= DeadKeys(log, g');
  }

  lemma {:induction false} FlatTwo(a: seq<string>, b: seq<string>, rest: seq<seq<string>>)
    ensures Flat([a, b] + rest) == a + b + Flat(rest)
  {
    assert ([a, b] + rest)[1..] == [b] + rest;
    assert ([b] + rest)[1..] == rest;
    assert Flat([b] + rest) == b + Flat(rest);
  }

  lemma {:induction false} HalvedSame(batches: seq<seq<string>>, batches': seq<seq<string>>)
    requires batches != [] && Halved(batches, batches')
    ensures Flat(batches') == Flat(batches)
  {
    var half := |batches[0]| / 2;
    FlatTwo(batches[0][..half], batches[0][half..], batches[1..]);
    assert batches[0][..half] + batches[0][half..] == batches[0];
  }

  lemma FlatHead(batches: seq<seq<string>>, log: Log)
    requires batches != []
    ensures Flat(batches) == batches[0] + Flat(batches[1..])
    ensures Keys(Flat(batches), KeyIn(log)) == Keys(batches[0], KeyIn(log)) + Keys(Flat(batches[1..]), KeyIn(log))
  {
    KeysConcat(batches[0], Flat(batches[1..]), KeyIn(log));
  }

  lemma {:induction false} JoiningKeeps(log: Log, g: Shared, p: Phase, g': Shared, p': Phase)
    requires p.Joining? && Holds(log, g, p) && JoiningStep(log, g, p, g', p')
    ensures Holds(log, g, p')
  {
    if p.batches == [] {
      assert Keys(Flat([]), KeyIn(log)) == {};
      UnknownMeans(p.joined, KeyIn(log), p.known);
    } else if p' != p {
      FlatHead(p.batches, log);
      if AllJoin(log, p.batches[0]) {
        KeysConcat(p.joined, p.batches[0], KeyIn(log));
      } else if |p.batches[0]| == 1 {
        var id := p.batches[0][0];
        assert p.batches[0] == [id] && id in Flat(p.batches);
        OneKey(id, KeyIn(log));
      } else {
        HalvedSame(p.batches, p'.batches);
      }
    }
  }

  lemma {:induction false} InsertingKeeps(log: Log, g: Shared, p: Phase, g': Shared, p': Phase)
    requires p.Inserting? && Holds(log, g, p) && InsertingStep(log, g, p, g', p')
    ensures Grows(g, g') && g'.(stored := g.stored) == g && Holds(log, g', p')
  {
    OthersUndisturbed(log, g, g', p);
    if p.batches == [] {
      assert Keys(Flat([]), KeyIn(log)) == {};
    } else if p' != p {
      FlatHead(p.batches, log);
      if p'.InsertRefused? {
        var id := p.batches[0][0];
        assert p.batches[0] == [id] && id in Flat(p.batches);
        OneKey(id, KeyIn(log));
      } else if p'.batches != p.batches[1..] || g'.stored != g.stored + Keys(p.batches[0], KeyIn(log)) {
        HalvedSame(p.batches, p'.batches);
      } else if Halved(p.batches, p'.batches) {
        HalvedSame(p.batches, p'.batches);
      }
    }
  }

  /** What is stored was accepted, and by entries that joined. */
  lemma InsertingStoresAccepted(log: Log, g: Shared, p: Phase, g': Shared, p': Phase)
    requires p.Inserting? && Holds(log, g, p) && InsertingStep(log, g, p, g', p') && Deserved(log, g)
    ensures Deserved(log, g')
  {
    if p.batches != [] {
      FlatHead(p.batches, log);
      forall k | k in g'.stored && k !in g.stored ensures HasAccepted(log, k) {
        var id :| id in p.batches[0] && KeyIn(log)(id) == k;
        assert id in Flat(p.batches);
        assert Accepted(log, id);
      }
    }
  }

  /** A worker's own step keeps the promise, its own reliance, and everyone else's. */
  lemma {:induction false} WorkerStepKeeps(log: Log, g: Shared, p: Phase, g': Shared, p': Phase)
    requires Kept(log, g) && Holds(log, g, p) && WorkerStep(log, g, p, g', p')
    ensures Grows(g, g') && Kept(log, g') && Holds(log, g', p')
  {
    if g' == g && p' == Idle {
      return;
    }
    match p {
      case Joining(_, _, _, _) => JoiningKeeps(log, g, p, g', p');
      case Inserting(_, _, _) =>
        InsertingKeeps(log, g, p, g', p');
        InsertingStoresAccepted(log, g, p, g', p');
        assert DeadKeys(log, g') == DeadKeys(log, g);
      case Finding(ids) =>
        if p' != p {
          var unique := FirstOfEachKey(ids, KeyIn(log));
          FirstHaveEachKey(ids, KeyIn(log));
          assert Flat([unique]) == unique + Flat([unique][1..]);
        }
      case JoinRefused(_, _, _, _, id) => MovedKeeps(log, g, p, g', id);
      case InsertRefused(_, _, _, id) => MovedKeeps(log, g, p, g', id);
      case Sorting(todo, _) =>
        if g' != g {
          MovedKeeps(log, g, p, g', todo[0]);
        }
      case Marking(_, _) => OthersUndisturbed(log, g, g', p);
      case _ =>
    }
  }

  lemma {:induction false} MovedKeeps(log: Log, g: Shared, p: Phase, g': Shared, id: string)
    requires Kept(log, g) && Holds(log, g, p) && MaybeMoved(g, g', id)
    requires id !in log || log[id].Undecodable? || Refused(log, id)
    ensures Grows(g, g') && Kept(log, g') && Holds(log, g', p)
  {
    assert DeadKeys(log, g) <= DeadKeys(log, g');
    OthersUndisturbed(log, g, g', p);
  }

  // ---- whole runs ----

  ghost predicate Safe(log: Log, c: Cluster) {
    Kept(log, c.shared) && forall w :: w in c.workers ==> Holds(log, c.shared, c.workers[w])
  }

  ghost predicate Initial(c: Cluster) {
    c.shared == Shared({}, {}, {}, {}) && forall w :: w in c.workers ==> c.workers[w] == Idle
  }

  /** Worker w takes one step; the others do not move. */
  ghost predicate Step(log: Log, c: Cluster, w: nat, c': Cluster) {
    && w in c.workers && w in c'.workers
    && WorkerStep(log, c.shared, c.workers[w], c'.shared, c'.workers[w])
    && c'.workers == c.workers[w := c'.workers[w]]
  }

  lemma StepKeeps(log: Log, c: Cluster, w: nat, c': Cluster)
    requires Safe(log, c) && Step(log, c, w, c')
    ensures Safe(log, c') && Grows(c.shared, c'.shared)
  {
    WorkerStepKeeps(log, c.shared, c.workers[w], c'.shared, c'.workers[w]);
    forall v | v in c'.workers && v != w ensures Holds(log, c'.shared, c'.workers[v]) {
      OthersUndisturbed(log, c.shared, c'.shared, c.workers[v]);
    }
  }

  /** A run: worker turns[i] takes the cluster from states[i] to states[i + 1]. */
  ghost predicate Run(log: Log, states: seq<Cluster>, turns: seq<nat>) {
    && |states| == |turns| + 1
    && Initial(states[0])
    && forall i :: 0 <= i < |turns| ==> Step(log, states[i], turns[i], states[i + 1])
  }

  /** Some run ends in this state. */
  ghost predicate Reachable(log: Log, c: Cluster) {
    exists states: seq<Cluster>, turns: seq<nat> :: Run(log, states, turns) && states[|turns|] == c
  }

  lemma {:induction false} RunKeeps(log: Log, states: seq<Cluster>, turns: seq<nat>, n: nat)
    requires Run(log, states, turns) && n < |states|
    ensures Safe(log, states[n])
  {
    if n > 0 {
      RunKeeps(log, states, turns, n - 1);
      StepKeeps(log, states[n - 1], turns[n - 1], states[n]);
    }
  }

  /** In every run, whatever fails, stops or is redelivered: an acknowledged entry could not be read, or joiner
      or event store refused an entry of its key, or its row is stored and Stored was told about it after that. */
  lemma AcknowledgedIsKept(log: Log, c: Cluster, id: string)
    requires Reachable(log, c) && id in c.shared.acked
    ensures
      var g := c.shared;
      || (id in g.dead && (id !in log || log[id].Undecodable?))
      || (id in log && log[id].Decoded?
          && ((exists d :: d in g.dead && Refused(log, d) && log[d].key == log[id].key)
              || (log[id].key in g.stored && log[id].key in g.marked)))
  {
    var states, turns :| Run(log, states, turns) && states[|turns|] == c;
    RunKeeps(log, states, turns, |turns|);
    var g := c.shared;
    if id in log && log[id].Decoded? && log[id].key !in g.marked {
      if id !in g.dead {
        var d :| d in g.dead && d in log && log[d].Decoded? && log[d].key == log[id].key;
        assert Refused(log, d);
      }
    }
  }

  // ---- exactly when every mark is made ----

  /** The stream holds an accepted and a refused entry of one key. */
  ghost predicate Mixed(log: Log, k: Key) {
    HasAccepted(log, k) && exists id :: Refused(log, id) && log[id].key == k
  }

  /** An acknowledged entry whose row is stored was marked. */
  ghost predicate AckedMeansMarked(log: Log, g: Shared, k: Key) {
    forall id :: id in g.acked && id in log && log[id].Decoded? && log[id].key == k && k in g.stored ==> k in g.marked
  }

  /** A stored row is marked, or an entry that brings its key back is still to be acknowledged. */
  ghost predicate MarkedOrComing(log: Log, g: Shared, k: Key) {
    k in g.stored ==> k in g.marked || exists id :: id in log && log[id].Decoded? && log[id].key == k && id !in g.acked
  }

  lemma UnmixedIsMarked(log: Log, k: Key, c: Cluster)
    requires Reachable(log, c) && !Mixed(log, k)
    ensures AckedMeansMarked(log, c.shared, k) && MarkedOrComing(log, c.shared, k)
  {
    var states, turns :| Run(log, states, turns) && states[|turns|] == c;
    RunKeeps(log, states, turns, |turns|);
    var g := c.shared;
    if k in g.stored {
      assert HasAccepted(log, k);
      forall id | id in g.acked && id in log && log[id].Decoded? && log[id].key == k ensures k in g.marked {
        AcknowledgedIsKept(log, c, id);
      }
      var a :| Accepted(log, a) && log[a].key == k;
      assert a in g.acked ==> k in g.marked;
    }
  }

  function With(c: Cluster, w: nat, g: Shared, p: Phase): Cluster {
    Cluster(g, c.workers[w := p])
  }

  /** Reachable with worker w in phase p, and so in the phase its next step leads to. */
  lemma MoveOn(log: Log, c: Cluster, w: nat, g: Shared, p: Phase, g': Shared, p': Phase)
    requires Reachable(log, With(c, w, g, p)) && w in c.workers && WorkerStep(log, g, p, g', p')
    ensures Reachable(log, With(c, w, g', p'))
  {
    var was, now := With(c, w, g, p), With(c, w, g', p');
    var states, turns :| Run(log, states, turns) && states[|turns|] == was;
    var more, moves := states + [now], turns + [w];
    forall i | 0 <= i < |moves| ensures Step(log, more[i], moves[i], more[i + 1]) {
      if i < |turns| {
        assert Step(log, states[i], turns[i], states[i + 1]);
      } else {
        assert now.workers == was.workers[w := p'];
      }
    }
    assert Run(log, more, moves) && more[|moves|] == now;
  }

  lemma {:induction false} SortAll(log: Log, c: Cluster, w: nat, g: Shared, todo: seq<string>, ids: seq<string>)
    requires Reachable(log, With(c, w, g, Sorting(todo, ids))) && w in c.workers && AllDecoded(log, todo)
    ensures Reachable(log, With(c, w, g, Sorting([], ids + todo)))
    decreases |todo|
  {
    if todo == [] {
      assert ids + todo == ids;
    } else {
      MoveOn(log, c, w, g, Sorting(todo, ids), g, Sorting(todo[1..], ids + [todo[0]]));
      SortAll(log, c, w, g, todo[1..], ids + [todo[0]]);
      assert ids + [todo[0]] + todo[1..] == ids + todo;
    }
  }

  /** An idle worker may read any entries not acknowledged, and get as far as joining them. */
  lemma TakeBatch(log: Log, c: Cluster, w: nat, batch: seq<string>, known: set<Key>)
    requires Reachable(log, c) && w in c.workers && c.workers[w] == Idle
    requires batch != [] && AllDecoded(log, batch) && forall id :: id in batch ==> id !in c.shared.acked
    requires known == Keys(batch, KeyIn(log)) * c.shared.stored
    ensures Reachable(log, With(c, w, c.shared, Joining(batch, [FirstOfEachKey(batch, KeyIn(log))], [], known)))
  {
    var g := c.shared;
    assert With(c, w, g, Idle) == c;
    MoveOn(log, c, w, g, Idle, g, Sorting(batch, []));
    SortAll(log, c, w, g, batch, []);
    assert [] + batch == batch;
    MoveOn(log, c, w, g, Sorting([], batch), g, Finding(batch));
    MoveOn(log, c, w, g, Finding(batch), g, Joining(batch, [FirstOfEachKey(batch, KeyIn(log))], [], known));
  }

  /** The entries of one key with a given one first. */
  ghost predicate AllOfKey(log: Log, k: Key, batch: seq<string>, first: string) {
    && batch != [] && batch[0] == first
    && (forall id :: id in batch <==> id in log && log[id].Decoded? && log[id].key == k)
  }

  lemma {:induction false} Listed(ids: set<string>) returns (list: seq<string>)
    ensures forall id :: id in list <==> id in ids
  {
    if ids == {} {
      list := [];
    } else {
      var id :| id in ids;
      var rest := Listed(ids - {id});
      list := [id] + rest;
    }
  }

  lemma {:induction false} FirstAlone(log: Log, k: Key, batch: seq<string>)
    requires batch != [] && forall id :: id in batch ==> KeyIn(log)(id) == k
    ensures FirstOfEachKey(batch, KeyIn(log)) == [batch[0]]
  {
    if |batch| > 1 {
      var before := batch[..|batch| - 1];
      FirstAlone(log, k, before);
      assert KeyIn(log)(before[0]) == k && before[0] in before;
    } else {
      assert batch[..0] == [] && FirstOfEachKey(batch[..0], KeyIn(log)) == [];
      assert Keys(batch[..0], KeyIn(log)) == {};
    }
  }

  function Two(g: Shared, p: Phase, q: Phase): Cluster {
    Cluster(g, map[0 := p, 1 := q])
  }

  lemma Move0(log: Log, g: Shared, p: Phase, q: Phase, g': Shared, p': Phase)
    requires Reachable(log, Two(g, p, q)) && WorkerStep(log, g, p, g', p')
    ensures Reachable(log, Two(g', p', q))
  {
    var c := Two(g, p, q);
    assert With(c, 0, g, p) == c && With(c, 0, g', p') == Two(g', p', q);
    MoveOn(log, c, 0, g, p, g', p');
  }

  lemma Move1(log: Log, g: Shared, p: Phase, q: Phase, g': Shared, q': Phase)
    requires Reachable(log, Two(g, p, q)) && WorkerStep(log, g, q, g', q')
    ensures Reachable(log, Two(g', p, q'))
  {
    var c := Two(g, p, q);
    assert With(c, 1, g, q) == c && With(c, 1, g', q') == Two(g', p, q');
    MoveOn(log, c, 1, g, q, g', q');
  }

  /** One entry as a batch of its own. */
  lemma Alone(log: Log, id: string)
    ensures Flat([[id]]) == [id] && Unknown([id], KeyIn(log), {}) == [id]
    ensures FirstOfEachKey([id], KeyIn(log)) == [id]
    ensures Keys([id], KeyIn(log)) == {KeyIn(log)(id)}
  {
    FirstAlone(log, KeyIn(log)(id), [id]);
    OneKey(id, KeyIn(log));
    assert [id][..0] == [] && [[id]][1..] == [];
  }

  const NOTHING := Shared({}, {}, {}, {})

  /** Worker 0 holds an accepted entry, ready to insert it. */
  lemma OneHolds(log: Log, a: string)
    requires Accepted(log, a)
    ensures Reachable(log, Two(NOTHING, Inserting([a], [[a]], [a]), Idle))
  {
    var c := Two(NOTHING, Idle, Idle);
    var turns: seq<nat> := [];
    assert Run(log, [c], turns) && [c][|turns|] == c;
    Alone(log, a);
    TakeBatch(log, c, 0, [a], {});
    assert With(c, 0, NOTHING, Joining([a], [[a]], [], {})) == Two(NOTHING, Joining([a], [[a]], [], {}), Idle);
    assert [[a]][1..] == [] && [] + [a] == [a];
    Move0(log, NOTHING, Joining([a], [[a]], [], {}), Idle, NOTHING, Joining([a], [], [a], {}));
    Move0(log, NOTHING, Joining([a], [], [a], {}), Idle, NOTHING, Inserting([a], [[a]], [a]));
  }

  /** Worker 1 holds all entries of a key, a refused one first. */
  lemma OtherHolds(log: Log, k: Key, p: Phase, batch: seq<string>, b: string)
    requires Reachable(log, Two(NOTHING, p, Idle)) && AllOfKey(log, k, batch, b)
    ensures Reachable(log, Two(NOTHING, p, Joining(batch, [[b]], [], {})))
  {
    var c := Two(NOTHING, p, Idle);
    FirstAlone(log, k, batch);
    TakeBatch(log, c, 1, batch, {});
    assert With(c, 1, NOTHING, Joining(batch, [[b]], [], {})) == Two(NOTHING, p, Joining(batch, [[b]], [], {}));
  }

  /** It dead-letters the refused entry, for the joiner or for the event store, and has nothing to mark. */
  lemma JoinRefuses(log: Log, p: Phase, batch: seq<string>, b: string)
    requires Reachable(log, Two(NOTHING, p, Joining(batch, [[b]], [], {}))) && Refused(log, b) && !log[b].joins
    ensures Reachable(log, Two(Shared({b}, {b}, {}, {}), p, Acking(batch)))
  {
    var g, moved := NOTHING, Shared({b}, {b}, {}, {});
    assert b in [b] && !AllJoin(log, [b]) && [[b]][1..] == [];
    Move1(log, g, p, Joining(batch, [[b]], [], {}), g, JoinRefused(batch, [], [], {}, b));
    Move1(log, g, p, JoinRefused(batch, [], [], {}, b), moved, Joining(batch, [], [], {}));
    Move1(log, moved, p, Joining(batch, [], [], {}), moved, Inserting(batch, [], []));
    Move1(log, moved, p, Inserting(batch, [], []), moved, Marking(batch, []));
    Move1(log, moved, p, Marking(batch, []), moved, Acking(batch));
  }

  lemma InsertRefuses(log: Log, p: Phase, batch: seq<string>, b: string)
    requires Reachable(log, Two(NOTHING, p, Joining(batch, [[b]], [], {}))) && Refused(log, b) && log[b].joins
    ensures Reachable(log, Two(NOTHING, p, InsertRefused(batch, [], [b], b)))
  {
    var g := NOTHING;
    Alone(log, b);
    assert b in [b] && !AllStore(log, [b]) && AllJoin(log, [b]) && [[b]][1..] == [] && [] + [b] == [b];
    Move1(log, g, p, Joining(batch, [[b]], [], {}), g, Joining(batch, [], [b], {}));
    Move1(log, g, p, Joining(batch, [], [b], {}), g, Inserting(batch, [[b]], [b]));
    Move1(log, g, p, Inserting(batch, [[b]], [b]), g, InsertRefused(batch, [], [b], b));
  }

  lemma NothingToMark(log: Log, p: Phase, batch: seq<string>, b: string)
    requires Reachable(log, Two(NOTHING, p, InsertRefused(batch, [], [b], b)))
    ensures Reachable(log, Two(Shared({b}, {b}, {}, {}), p, Acking(batch)))
  {
    var moved := Shared({b}, {b}, {}, {});
    Move1(log, NOTHING, p, InsertRefused(batch, [], [b], b), moved, Inserting(batch, [], [b]));
    Move1(log, moved, p, Inserting(batch, [], [b]), moved, Marking(batch, [b]));
    assert moved.marked + Keys([b], KeyIn(log)) * moved.stored == {};
    Move1(log, moved, p, Marking(batch, [b]), moved, Acking(batch));
  }

  /** The batch is acknowledged; then worker 0 stores its row, and stops. */
  lemma StoredTooLate(log: Log, a: string, batch: seq<string>, b: string, acked: set<string>)
    requires Accepted(log, a) && acked == {b} + set id | id in batch
    requires Reachable(log, Two(Shared({b}, {b}, {}, {}), Inserting([a], [[a]], [a]), Acking(batch)))
    ensures Reachable(log, Two(Shared(acked, {b}, {log[a].key}, {}), Idle, Idle))
  {
    var p, g, after := Inserting([a], [[a]], [a]), Shared(acked, {b}, {}, {}), Shared(acked, {b}, {log[a].key}, {});
    Move1(log, Shared({b}, {b}, {}, {}), p, Acking(batch), g, Idle);
    Alone(log, a);
    assert AllStore(log, [a]) && {} + {log[a].key} == {log[a].key} && [[a]][1..] == [];
    Move0(log, g, p, Idle, after, Inserting([a], [], [a]));
    Move0(log, after, Inserting([a], [], [a]), Idle, after, Idle);
  }

  /** Of an accepted and a refused entry of one key a mark can be lost for good: the row is stored and not marked,
      every entry of its key is acknowledged, and every worker is idle. */
  lemma MarkIsLost(log: Log, k: Key) returns (c: Cluster)
    requires Mixed(log, k)
    ensures Reachable(log, c) && k in c.shared.stored && k !in c.shared.marked
    ensures forall id :: id in log && log[id].Decoded? && log[id].key == k ==> id in c.shared.acked
    ensures forall w :: w in c.workers ==> c.workers[w] == Idle
  {
    var a :| Accepted(log, a) && log[a].key == k;
    var b :| Refused(log, b) && log[b].key == k;
    var rest := Listed(set id | id in log && log[id].Decoded? && log[id].key == k);
    var batch := [b] + rest;
    var acked := {b} + set id | id in batch;
    OneHolds(log, a);
    OtherHolds(log, k, Inserting([a], [[a]], [a]), batch, b);
    if log[b].joins {
      InsertRefuses(log, Inserting([a], [[a]], [a]), batch, b);
      NothingToMark(log, Inserting([a], [[a]], [a]), batch, b);
    } else {
      JoinRefuses(log, Inserting([a], [[a]], [a]), batch, b);
    }
    StoredTooLate(log, a, batch, b, acked);
    c := Two(Shared(acked, {b}, {k}, {}), Idle, Idle);
  }

  /** In every run every acknowledged entry of a key whose row is stored was marked, if and only if the stream
      does not hold an accepted and a refused entry of that key. */
  lemma AckedMeansMarkedIff(log: Log, k: Key)
    ensures (forall c :: Reachable(log, c) ==> AckedMeansMarked(log, c.shared, k)) <==> !Mixed(log, k)
  {
    if Mixed(log, k) {
      var c := MarkIsLost(log, k);
      var a :| Accepted(log, a) && log[a].key == k;
      assert a in c.shared.acked;
      assert !AckedMeansMarked(log, c.shared, k);
    } else {
      forall c | Reachable(log, c) ensures AckedMeansMarked(log, c.shared, k) {
        UnmixedIsMarked(log, k, c);
      }
    }
  }

  /** In every run every stored row of a key is marked or has an entry still to come back, under the same
      condition: a refusal by the event store is as bad as one by the joiner, because the batch that holds it may
      acknowledge an entry whose row another worker is about to store. */
  lemma MarkedOrComingIff(log: Log, k: Key)
    ensures (forall c :: Reachable(log, c) ==> MarkedOrComing(log, c.shared, k)) <==> !Mixed(log, k)
  {
    if Mixed(log, k) {
      var c := MarkIsLost(log, k);
      assert !MarkedOrComing(log, c.shared, k);
    } else {
      forall c | Reachable(log, c) ensures MarkedOrComing(log, c.shared, k) {
        UnmixedIsMarked(log, k, c);
      }
    }
  }

  // ---- no entry is stuck ----

  /** The entry is acknowledged: its row is stored and marked, or it is on the dead-letter stream, as it must be if
      nobody could read it; an accepted one is always stored. */
  predicate Handled(log: Log, g: Shared, id: string)
    requires id in log
  {
    && id in g.acked
    && (log[id].Undecodable? ==> id in g.dead)
    && (log[id].Decoded? ==> id in g.dead || (log[id].key in g.stored && log[id].key in g.marked))
    && (Accepted(log, id) ==> log[id].key in g.stored && log[id].key in g.marked)
  }

  lemma Stopped(log: Log, c: Cluster, w: nat, g: Shared, p: Phase)
    requires Reachable(log, With(c, w, g, p)) && w in c.workers
    ensures Reachable(log, With(c, w, g, Idle))
  {
    MoveOn(log, c, w, g, p, g, Idle);
  }

  lemma UnreadableIsHandled(log: Log, c: Cluster, w: nat, g: Shared, id: string)
    requires Reachable(log, With(c, w, g, Idle)) && w in c.workers
    requires id in log && log[id].Undecodable? && id !in g.acked
    ensures exists g' :: Reachable(log, With(c, w, g', Idle)) && Handled(log, g', id)
  {
    var g' := g.(dead := g.dead + {id}, acked := g.acked + {id});
    MoveOn(log, c, w, g, Idle, g, Sorting([id], []));
    assert [id][1..] == [];
    MoveOn(log, c, w, g, Sorting([id], []), g', Sorting([], []));
    Stopped(log, c, w, g', Sorting([], []));
    assert Handled(log, g', id);
  }

  /** An entry alone that was joined, and is stored, is marked and acknowledged. */
  lemma StoredIsHandled(log: Log, c: Cluster, w: nat, g: Shared, id: string)
    requires Reachable(log, With(c, w, g, Inserting([id], [], [id]))) && w in c.workers
    requires id in log && log[id].Decoded? && log[id].key in g.stored
    ensures exists g' :: Reachable(log, With(c, w, g', Idle)) && Handled(log, g', id)
  {
    Alone(log, id);
    var marked := g.(marked := g.marked + Keys([id], KeyIn(log)) * g.stored);
    var acked := marked.(acked := marked.acked + set x | x in [id]);
    MoveOn(log, c, w, g, Inserting([id], [], [id]), g, Marking([id], [id]));
    MoveOn(log, c, w, g, Marking([id], [id]), marked, Acking([id]));
    MoveOn(log, c, w, marked, Acking([id]), acked, Idle);
    assert id in [id] && Handled(log, acked, id);
  }

  lemma RefusedIsHandled(log: Log, c: Cluster, w: nat, g: Shared, id: string, p: Phase, next: Phase)
    requires Reachable(log, With(c, w, g, p)) && w in c.workers && Refused(log, id)
    requires || (p.JoinRefused? && p.id == id && next == Joining(p.ids, p.batches, p.joined, p.known))
             || (p.InsertRefused? && p.id == id && next == Inserting(p.ids, p.batches, p.joined))
    ensures exists g' :: Reachable(log, With(c, w, g', Idle)) && Handled(log, g', id)
  {
    var g' := g.(dead := g.dead + {id}, acked := g.acked + {id});
    MoveOn(log, c, w, g, p, g', next);
    Stopped(log, c, w, g', next);
    assert Handled(log, g', id);
  }

  /** The event store's answer to an entry alone. */
  lemma InsertAlone(log: Log, g: Shared, id: string)
    requires id in log && log[id].Decoded? && log[id].joins
    ensures var p := Inserting([id], [[id]], [id]);
            if log[id].stores
            then WorkerStep(log, g, p, g.(stored := g.stored + Keys([id], KeyIn(log))), Inserting([id], [], [id]))
            else WorkerStep(log, g, p, g, InsertRefused([id], [], [id], id))
  {
    var p := Inserting([id], [[id]], [id]);
    assert p.batches[0] == [id] && p.batches[1..] == [] && p.batches[0][0] == id && id in p.batches[0];
    assert AllStore(log, [id]) <==> log[id].stores;
  }

  lemma InsertingIsHandled(log: Log, c: Cluster, w: nat, g: Shared, id: string)
    requires Reachable(log, With(c, w, g, Inserting([id], [[id]], [id]))) && w in c.workers
    requires id in log && log[id].Decoded? && log[id].joins
    ensures exists g' :: Reachable(log, With(c, w, g', Idle)) && Handled(log, g', id)
  {
    var p := Inserting([id], [[id]], [id]);
    InsertAlone(log, g, id);
    if log[id].stores {
      var stored := g.(stored := g.stored + Keys([id], KeyIn(log)));
      MoveOn(log, c, w, g, p, stored, Inserting([id], [], [id]));
      Alone(log, id);
      StoredIsHandled(log, c, w, stored, id);
    } else {
      MoveOn(log, c, w, g, p, g, InsertRefused([id], [], [id], id));
      RefusedIsHandled(log, c, w, g, id, InsertRefused([id], [], [id], id), Inserting([id], [], [id]));
    }
  }

  lemma JoinedIsHandled(log: Log, c: Cluster, w: nat, g: Shared, id: string, known: set<Key>)
    requires Reachable(log, With(c, w, g, Joining([id], [], [id], known))) && w in c.workers
    requires id in log && log[id].Decoded? && log[id].joins && known == {log[id].key} * g.stored
    ensures exists g' :: Reachable(log, With(c, w, g', Idle)) && Handled(log, g', id)
  {
    var p, k := Joining([id], [], [id], known), log[id].key;
    Alone(log, id);
    assert [id][..0] == [] && [[id]][1..] == [] && Unknown([id][..0], KeyIn(log), known) == [];
    if k in g.stored {
      assert Unknown([id], KeyIn(log), known) == [];
      MoveOn(log, c, w, g, p, g, Inserting([id], [], [id]));
      StoredIsHandled(log, c, w, g, id);
    } else {
      assert Unknown([id], KeyIn(log), known) == [id];
      MoveOn(log, c, w, g, p, g, Inserting([id], [[id]], [id]));
      InsertingIsHandled(log, c, w, g, id);
    }
  }

  lemma JoiningIsHandled(log: Log, c: Cluster, w: nat, g: Shared, id: string, known: set<Key>)
    requires Reachable(log, With(c, w, g, Joining([id], [[id]], [], known))) && w in c.workers
    requires id in log && log[id].Decoded? && known == {log[id].key} * g.stored
    ensures exists g' :: Reachable(log, With(c, w, g', Idle)) && Handled(log, g', id)
  {
    var p := Joining([id], [[id]], [], known);
    assert p.batches[0] == [id] && p.batches[1..] == [] && p.joined + [id] == [id] && id in p.batches[0];
    if log[id].joins {
      MoveOn(log, c, w, g, p, g, Joining([id], [], [id], known));
      JoinedIsHandled(log, c, w, g, id, known);
    } else {
      MoveOn(log, c, w, g, p, g, JoinRefused([id], [], [], known, id));
      RefusedIsHandled(log, c, w, g, id, JoinRefused([id], [], [], known, id), Joining([id], [], [], known));
    }
  }

  lemma DecodedIsHandled(log: Log, c: Cluster, w: nat, id: string)
    requires Reachable(log, c) && w in c.workers && c.workers[w] == Idle
    requires id in log && log[id].Decoded? && id !in c.shared.acked
    ensures exists g' :: Reachable(log, With(c, w, g', Idle)) && Handled(log, g', id)
  {
    var known := Keys([id], KeyIn(log)) * c.shared.stored;
    Alone(log, id);
    TakeBatch(log, c, w, [id], known);
    JoiningIsHandled(log, c, w, c.shared, id, known);
  }

  lemma OtherWorkersAsWell(c: Cluster, w: nat, g: Shared, p: Phase, q: Phase)
    ensures With(With(c, w, g, p), w, g, q) == With(c, w, g, q)
    ensures forall g' :: With(With(c, w, g, p), w, g', q) == With(c, w, g', q)
  {
  }

  /** From every reachable state any one worker can see any entry through: nothing that went wrong before leaves it
      stuck. */
  lemma NoEntryIsStuck(log: Log, c: Cluster, w: nat, id: string)
    requires Reachable(log, c) && w in c.workers && id in log && id !in c.shared.acked
    ensures exists g' :: Reachable(log, With(c, w, g', Idle)) && Handled(log, g', id)
  {
    var g := c.shared;
    assert With(c, w, g, c.workers[w]) == c;
    Stopped(log, c, w, g, c.workers[w]);
    if log[id].Undecodable? {
      UnreadableIsHandled(log, c, w, g, id);
    } else {
      OtherWorkersAsWell(c, w, g, Idle, Idle);
      DecodedIsHandled(log, With(c, w, g, Idle), w, id);
    }
  }
}
