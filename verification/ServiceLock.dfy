/** The cluster-wide lock between AlamedaServices: whichever service creates it is the one
    that is reconciled. Workers run concurrently, one per service key, and every step is one
    call to the API server. */
module ServiceLock {
  import opened Options

  datatype RawKey = RawKey(namespace: string, name: string)

  /** Kubernetes names hold no slash. */
  type Key = k: RawKey | '/' !in k.namespace && '/' !in k.name witness RawKey("", "")

  /** What is written into the lock's annotation. */
  function Text(k: Key): string {
    k.namespace + "/" + k.name
  }

  /** `owners` are the UIDs of the lock's owner references. */
  datatype Lock = Lock(annotation: Option<string>, owners: seq<string>)

  /** By an owner reference, as older releases recorded it, or by the annotation. */
  predicate IsOwnedBy(lock: Lock, k: Key, uid: string) {
    uid in lock.owners || lock.annotation == Some(Text(k))
  }

  const NO_UID := ""

  /** Where a worker stands: `Reconciling` is past the gate; `Unlocking` has passed the
      deletion handler's ownership test, and `Unlocked` its clean-up too. */
  datatype Phase =
    | Idle
    | Fetched(uid: string)
    | MustCreate(uid: string)
    | Reconciling(uid: string)
    | NotFound
    | Unlocking
    | Unlocked

  /** What happened to the lock, in order. `Passed` is a reconcile going through the gate,
      `Cascaded` the garbage collector removing a lock. */
  datatype Event = Created(key: Key) | Passed(key: Key) | Deleted(key: Key) | Cascaded

  /** `issued` remembers every UID ever given out and, for services, to which key. */
  datatype World = World(
    services: map<Key, string>,
    issued: map<string, Option<Key>>,
    lock: Option<Lock>,
    workers: map<Key, Phase>,
    events: seq<Event>)
  {
    function Worker(k: Key): Phase {
      if k in workers then workers[k] else Idle
    }

    function Put(k: Key, p: Phase): World {
      this.(workers := workers[k := p])
    }

    function Log(e: Event): World {
      this.(events := events + [e])
    }
  }

  /** `ok` is whether the call succeeds; a lock creation can also succeed and its reply be
      lost. `Cascade` is the garbage collector removing the lock on its own. */
  datatype Step =
    | CreateService(k: Key, uid: string)
    | DeleteService(k: Key)
    | IssueUid(uid: string)
    | GetService(k: Key, ok: bool)
    | ReadLock(k: Key, ok: bool)
    | CreateLock(k: Key, gc: string, ok: bool, replied: bool)
    | Finish(k: Key)
    | ReadLockForDeletion(k: Key, ok: bool)
    | CleanUp(k: Key)
    | DeleteLock(k: Key, ok: bool)
    | Cascade

  function Next(w: World, s: Step): World {
    match s
    case CreateService(k, uid) =>
      if k in w.services || uid in w.issued || uid == NO_UID then w
      else w.(services := w.services[k := uid], issued := w.issued[uid := Some(k)])
    case DeleteService(k) => w.(services := w.services - {k})
    case IssueUid(uid) =>
      if uid in w.issued || uid == NO_UID then w else w.(issued := w.issued[uid := None])
    case GetService(k, ok) =>
      if !w.Worker(k).Idle? || !ok then w
      else w.Put(k, if k in w.services then Fetched(w.services[k]) else NotFound)
    case ReadLock(k, ok) =>
      if !w.Worker(k).Fetched? then w
      else if !ok then w.Put(k, Idle)
      else if w.lock == None then w.Put(k, MustCreate(w.Worker(k).uid))
      else Gate(w, k, w.lock.value)
    case CreateLock(k, gc, ok, replied) =>
      if !w.Worker(k).MustCreate? || gc !in w.issued || w.issued[gc] != None then w
      else if !ok || w.lock != None then w.Put(k, Idle)
      else
        var lock := Lock(Some(Text(k)), [gc]);
        var w1 := w.(lock := Some(lock)).Log(Created(k));
        if replied then Gate(w1, k, lock) else w1.Put(k, Idle)
    case Finish(k) =>
      if w.Worker(k).Reconciling? then w.Put(k, Idle) else w
    case ReadLockForDeletion(k, ok) =>
      if !w.Worker(k).NotFound? then w
      else if !ok || w.lock == None || !IsOwnedBy(w.lock.value, k, NO_UID) then w.Put(k, Idle)
      else w.Put(k, Unlocking)
    case CleanUp(k) =>
      if w.Worker(k).Unlocking? then w.Put(k, Unlocked) else w
    case DeleteLock(k, ok) =>
      if !w.Worker(k).Unlocked? then w
      else if !ok || w.lock == None then w.Put(k, Idle)
      else w.(lock := None).Log(Deleted(k)).Put(k, Idle)
    case Cascade => if w.lock == None then w else w.(lock := None).Log(Cascaded)
  }

  /** The ownership test every reconcile has to pass. */
  function Gate(w: World, k: Key, lock: Lock): World
    requires w.Worker(k).Fetched? || w.Worker(k).MustCreate?
  {
    if IsOwnedBy(lock, k, w.Worker(k).uid) then w.Put(k, Reconciling(w.Worker(k).uid)).Log(Passed(k))
    else w.Put(k, Idle)
  }

  function Run(w: World, steps: seq<Step>): World
    decreases |steps|
  {
    if steps == [] then w else Run(Next(w, steps[0]), steps[1..])
  }

  // ------------------------------------------------------------------- the annotation

  lemma {:induction false} PrefixUpToSlash(a: string, b: string, s: string, t: string)
    requires '/' !in a && '/' !in b && a + "/" + s == b + "/" + t
    ensures a == b && s == t
  {
    assert (a + "/" + s)[0] == (b + "/" + t)[0];
    assert (a != [] ==> a[0] in a) && (b != [] ==> b[0] in b);
    assert a == [] <==> b == [];
    if a == [] {
      assert (a + "/" + s)[1..] == s && (b + "/" + t)[1..] == t;
    } else {
      assert (a + "/" + s)[1..] == a[1..] + "/" + s && (b + "/" + t)[1..] == b[1..] + "/" + t;
      PrefixUpToSlash(a[1..], b[1..], s, t);
    }
  }

  /** The annotation names one service. */
  lemma TextIsInjective(j: Key, k: Key)
    requires Text(j) == Text(k)
    ensures j == k
  {
    PrefixUpToSlash(j.namespace, k.namespace, j.name, k.name);
  }

  // ---------------------------------------------------------------------- the invariant

  /** The lock names this key, or was owned by a service that went by it. */
  predicate Belongs(issued: map<string, Option<Key>>, lock: Lock, k: Key) {
    lock.annotation == Some(Text(k)) || exists u :: u in lock.owners && u in issued && issued[u] == Some(k)
  }

  /** The lock belongs to one key at most, as both the annotated and the older kind do. */
  ghost predicate LockSound(issued: map<string, Option<Key>>, lock: Lock) {
    && (forall u :: u in lock.owners ==> u in issued)
    && (forall j: Key, k: Key :: Belongs(issued, lock, j) && Belongs(issued, lock, k) ==> j == k)
  }

  /** UIDs are never empty and never reused. */
  ghost predicate Sound(w: World) {
    && NO_UID !in w.issued
    && (forall k :: k in w.services ==> w.services[k] in w.issued && w.issued[w.services[k]] == Some(k))
    && (w.lock.Some? ==> LockSound(w.issued, w.lock.value))
  }

  predicate IsUidOf(w: World, u: string, k: Key) {
    u in w.issued && w.issued[u] == Some(k)
  }

  /** What each phase knows about the lock. */
  ghost predicate WorkerSound(w: World, k: Key) {
    match w.Worker(k)
    case Fetched(u) => IsUidOf(w, u, k)
    case MustCreate(u) => IsUidOf(w, u, k)
    case Reconciling(_) => w.lock.Some? && Belongs(w.issued, w.lock.value, k)
    case Unlocking => w.lock.Some? && w.lock.value.annotation == Some(Text(k))
    case Unlocked => w.lock.Some? && w.lock.value.annotation == Some(Text(k))
    case _ => true
  }

  ghost predicate Inv(w: World) {
    Sound(w) && forall k: Key :: WorkerSound(w, k)
  }

  lemma FreshLockBelongs(issued: map<string, Option<Key>>, k: Key, gc: string)
    requires gc in issued && issued[gc] == None
    ensures LockSound(issued, Lock(Some(Text(k)), [gc])) && Belongs(issued, Lock(Some(Text(k)), [gc]), k)
  {
    var lock := Lock(Some(Text(k)), [gc]);
    forall j: Key | Belongs(issued, lock, j) ensures j == k {
      TextIsInjective(j, k);
    }
  }

  lemma GateKeepsInv(w: World, k: Key, lock: Lock)
    requires Inv(w) && w.lock == Some(lock) && (w.Worker(k).Fetched? || w.Worker(k).MustCreate?)
    ensures Inv(Gate(w, k, lock))
  {
    assert WorkerSound(w, k);
    forall j: Key ensures WorkerSound(Gate(w, k, lock), j) {
      assert WorkerSound(w, j);
    }
  }

  lemma IssuedBelongs(issued: map<string, Option<Key>>, uid: string, owner: Option<Key>, lock: Lock)
    requires uid !in issued && LockSound(issued, lock)
    ensures LockSound(issued[uid := owner], lock)
    ensures forall k: Key :: Belongs(issued[uid := owner], lock, k) <==> Belongs(issued, lock, k)
  {
    forall k: Key ensures Belongs(issued[uid := owner], lock, k) <==> Belongs(issued, lock, k) {
      if Belongs(issued, lock, k) && lock.annotation != Some(Text(k)) {
        var u :| u in lock.owners && u in issued && issued[u] == Some(k);
        assert u in issued[uid := owner] && issued[uid := owner][u] == Some(k);
      }
    }
    var more := issued[uid := owner];
    forall j: Key, k: Key | Belongs(more, lock, j) && Belongs(more, lock, k)
      ensures j == k
    {
      assert Belongs(issued, lock, j) && Belongs(issued, lock, k);
    }
  }

  /** Giving out a new UID disturbs no worker. */
  lemma IssueKeepsInv(w: World, w': World, uid: string, owner: Option<Key>)
    requires Inv(w) && uid !in w.issued && uid != NO_UID
    requires w' == w.(issued := w.issued[uid := owner], services := w'.services)
    requires forall k :: k in w'.services ==>
      (k in w.services && w'.services[k] == w.services[k]) || (w'.services[k] == uid && owner == Some(k))
    ensures Inv(w')
  {
    if w.lock.Some? {
      IssuedBelongs(w.issued, uid, owner, w.lock.value);
    }
    forall k: Key ensures WorkerSound(w', k) {
      assert WorkerSound(w, k);
    }
  }

  lemma CreateKeepsInv(w: World, k: Key, gc: string, ok: bool, replied: bool)
    requires Inv(w)
    ensures Inv(Next(w, CreateLock(k, gc, ok, replied)))
  {
    assert WorkerSound(w, k);
    if w.Worker(k).MustCreate? && gc in w.issued && w.issued[gc] == None {
      if ok && w.lock == None {
        var lock := Lock(Some(Text(k)), [gc]);
        var w1 := w.(lock := Some(lock)).Log(Created(k));
        FreshLockBelongs(w.issued, k, gc);
        forall j: Key ensures WorkerSound(w1, j) {
          assert WorkerSound(w, j);
        }
        if replied {
          GateKeepsInv(w1, k, lock);
        } else {
          PhaseKeepsInv(w1, w1.Put(k, Idle), k);
        }
      } else {
        PhaseKeepsInv(w, w.Put(k, Idle), k);
      }
    }
  }

  lemma DeleteKeepsInv(w: World, k: Key, ok: bool)
    requires Inv(w)
    ensures Inv(Next(w, DeleteLock(k, ok)))
  {
    assert WorkerSound(w, k);
    var w' := Next(w, DeleteLock(k, ok));
    forall j: Key ensures WorkerSound(w', j) {
      assert WorkerSound(w, j);
      if Holds(w.Worker(k)) && Holds(w.Worker(j)) {
        OnlyOneHolder(w, j, k);
      }
    }
  }

  predicate Holds(p: Phase) {
    p.Reconciling? || p.Unlocking? || p.Unlocked?
  }

  /** Two workers that rely on the lock are the same worker. */
  lemma OnlyOneHolder(w: World, j: Key, k: Key)
    requires Inv(w) && Holds(w.Worker(j)) && Holds(w.Worker(k))
    ensures w.lock.Some? && Belongs(w.issued, w.lock.value, k) && j == k
  {
    assert WorkerSound(w, j) && WorkerSound(w, k);
    assert Belongs(w.issued, w.lock.value, j) && Belongs(w.issued, w.lock.value, k);
  }

  lemma PhaseKeepsInv(w: World, w': World, k: Key)
    requires Inv(w) && (w' == w || (w' == w.Put(k, w'.Worker(k)) && WorkerSound(w', k)))
    ensures Inv(w')
  {
    forall j: Key ensures WorkerSound(w', j) {
      assert WorkerSound(w, j);
    }
  }

  /** Nobody is past the gate or releasing the lock. */
  ghost predicate Quiet(w: World) {
    forall k: Key :: !Holds(w.Worker(k))
  }

  /** Every step keeps the invariant, a cascade while nobody relies on the lock. */
  lemma NextKeepsInv(w: World, s: Step)
    requires Inv(w) && (s == Cascade ==> Quiet(w))
    ensures Inv(Next(w, s))
  {
    match s
    case CreateService(k, uid) =>
      if !(k in w.services || uid in w.issued || uid == NO_UID) {
        IssueKeepsInv(w, Next(w, s), uid, Some(k));
      }
    case DeleteService(k) =>
      forall j: Key ensures WorkerSound(Next(w, s), j) {
        assert WorkerSound(w, j);
      }
    case IssueUid(uid) =>
      if !(uid in w.issued || uid == NO_UID) {
        IssueKeepsInv(w, Next(w, s), uid, None);
      }
    case GetService(k, ok) => PhaseKeepsInv(w, Next(w, s), k);
    case ReadLock(k, ok) =>
      assert WorkerSound(w, k);
      if w.Worker(k).Fetched? && ok && w.lock.Some? {
        GateKeepsInv(w, k, w.lock.value);
      } else {
        PhaseKeepsInv(w, Next(w, s), k);
      }
    case CreateLock(k, gc, ok, replied) => CreateKeepsInv(w, k, gc, ok, replied);
    case Finish(k) => PhaseKeepsInv(w, Next(w, s), k);
    case ReadLockForDeletion(k, ok) => PhaseKeepsInv(w, Next(w, s), k);
    case CleanUp(k) =>
      assert WorkerSound(w, k);
      PhaseKeepsInv(w, Next(w, s), k);
    case DeleteLock(k, ok) => DeleteKeepsInv(w, k, ok);
    case Cascade =>
      forall j: Key ensures WorkerSound(Next(w, s), j) {
        assert WorkerSound(w, j) && !Holds(w.Worker(j));
      }
  }

  /** Cascades happen only while nobody is past the gate or releasing the lock. */
  ghost predicate Harmless(w: World, steps: seq<Step>)
    decreases |steps|
  {
    steps == [] || ((steps[0] == Cascade ==> Quiet(w)) && Harmless(Next(w, steps[0]), steps[1..]))
  }

  lemma {:induction false} RunKeepsInv(w: World, steps: seq<Step>)
    requires Inv(w) && Harmless(w, steps)
    ensures Inv(Run(w, steps))
    decreases |steps|
  {
    if steps != [] {
      NextKeepsInv(w, steps[0]);
      RunKeepsInv(Next(w, steps[0]), steps[1..]);
    }
  }

  /** The state before anyone has been reconciled: any services, no worker under way, and no
      lock, or one belonging to a single key. */
  ghost predicate Init(w: World) {
    Sound(w) && w.workers == map[] && w.events == []
  }

  /** However many services there are and however their calls interleave, at most one is past
      the gate or releasing the lock, and the lock belongs to it. Cascades while there is one
      are what this leaves out, and has to (see `CascadeBreaksExclusionIff`). */
  lemma MutualExclusion(w: World, steps: seq<Step>, j: Key, k: Key)
    requires Init(w) && Harmless(w, steps)
    requires Holds(Run(w, steps).Worker(j)) && Holds(Run(w, steps).Worker(k))
    ensures j == k
    ensures var r := Run(w, steps); r.lock.Some? && Belongs(r.issued, r.lock.value, k)
  {
    RunKeepsInv(w, steps);
    OnlyOneHolder(Run(w, steps), j, k);
  }

  // -------------------------------------------------------------------- over the history

  /** The lock is gone. */
  predicate Ends(e: Event) {
    e.Deleted? || e.Cascaded?
  }

  /** An end is followed by a creation, anything else by a cascade or an act of the same
      service that creates nothing. */
  predicate Follows(before: Event, after: Event) {
    if Ends(before) then after.Created? else after.Cascaded? || (!after.Created? && after.key == before.key)
  }

  ghost predicate Chained(events: seq<Event>) {
    forall i :: 0 < i < |events| ==> Follows(events[i - 1], events[i])
  }

  /** The lock is there unless it went last, and belongs to whoever acted last. */
  ghost predicate LastHolds(w: World) {
    w.events != [] ==>
      var last := w.events[|w.events| - 1];
      if Ends(last) then w.lock == None
      else w.lock.Some? && Belongs(w.issued, w.lock.value, last.key)
  }

  ghost predicate HistoryInv(w: World) {
    Inv(w) && Chained(w.events) && LastHolds(w)
  }

  lemma AppendEvent(events: seq<Event>, e: Event)
    requires Chained(events) && (events != [] ==> Follows(events[|events| - 1], e))
    ensures Chained(events + [e])
  {
  }

  lemma PassKeepsHistory(w: World, k: Key)
    requires Sound(w) && w.lock.Some? && Belongs(w.issued, w.lock.value, k) && Chained(w.events) && LastHolds(w)
    ensures Chained(w.events + [Passed(k)]) && LastHolds(w.Log(Passed(k)))
  {
  }

  lemma ReadKeepsHistory(w: World, k: Key, ok: bool)
    requires HistoryInv(w)
    ensures var w' := Next(w, ReadLock(k, ok)); Chained(w'.events) && LastHolds(w')
  {
    assert WorkerSound(w, k);
    if w.Worker(k).Fetched? && ok && w.lock.Some? && IsOwnedBy(w.lock.value, k, w.Worker(k).uid) {
      PassKeepsHistory(w, k);
    }
  }

  lemma CreateKeepsHistory(w: World, k: Key, gc: string, ok: bool, replied: bool)
    requires HistoryInv(w)
    ensures var w' := Next(w, CreateLock(k, gc, ok, replied)); Chained(w'.events) && LastHolds(w')
  {
  }

  lemma DeleteKeepsHistory(w: World, k: Key, ok: bool)
    requires HistoryInv(w)
    ensures var w' := Next(w, DeleteLock(k, ok)); Chained(w'.events) && LastHolds(w')
  {
    assert WorkerSound(w, k);
    if w.Worker(k).Unlocked? && ok && w.lock.Some? {
      assert Belongs(w.issued, w.lock.value, k);
      AppendEvent(w.events, Deleted(k));
    }
  }

  lemma IssueKeepsHistory(w: World, w': World, uid: string, owner: Option<Key>)
    requires HistoryInv(w) && uid !in w.issued
    requires w'.issued == w.issued[uid := owner] && w'.lock == w.lock && w'.events == w.events
    ensures LastHolds(w')
  {
  }

  /** A step adds nothing to the history, or what its lock accounts for. */
  lemma NextKeepsHistory(w: World, s: Step)
    requires HistoryInv(w) && (s == Cascade ==> Quiet(w))
    ensures HistoryInv(Next(w, s))
  {
    NextKeepsInv(w, s);
    match s
    case CreateService(k, uid) =>
      if !(k in w.services || uid in w.issued || uid == NO_UID) {
        IssueKeepsHistory(w, Next(w, s), uid, Some(k));
      }
    case IssueUid(uid) =>
      if !(uid in w.issued || uid == NO_UID) {
        IssueKeepsHistory(w, Next(w, s), uid, None);
      }
    case ReadLock(k, ok) => ReadKeepsHistory(w, k, ok);
    case CreateLock(k, gc, ok, replied) => CreateKeepsHistory(w, k, gc, ok, replied);
    case DeleteLock(k, ok) => DeleteKeepsHistory(w, k, ok);
    case Cascade =>
      if w.lock.Some? {
        AppendEvent(w.events, Cascaded);
      }
    case _ =>
  }

  lemma {:induction false} RunKeepsHistory(w: World, steps: seq<Step>)
    requires HistoryInv(w) && Harmless(w, steps)
    ensures HistoryInv(Run(w, steps))
    decreases |steps|
  {
    if steps != [] {
      NextKeepsHistory(w, steps[0]);
      RunKeepsHistory(Next(w, steps[0]), steps[1..]);
    }
  }

  lemma {:induction false} ChainedUntilEnd(events: seq<Event>, i: nat, j: nat)
    requires Chained(events) && i < j < |events| && !Ends(events[i]) && forall m :: i < m < j ==> !Ends(events[m])
    ensures events[j].Cascaded? || (!events[j].Created? && events[j].key == events[i].key)
    decreases j
  {
    assert Follows(events[j - 1], events[j]);
    if i < j - 1 {
      ChainedUntilEnd(events, i, j - 1);
    }
  }

  /** From a creation of the lock until it is gone, every pass through the gate and the
      deletion itself are by the service that created it, and once gone the lock is created
      again before anyone passes. */
  ghost predicate OneServicePerLock(events: seq<Event>) {
    && (forall i, j :: 0 <= i < j < |events| && !Ends(events[i]) && (forall m :: i < m < j ==> !Ends(events[m])) ==>
          events[j].Cascaded? || (!events[j].Created? && events[j].key == events[i].key))
    && (forall i :: 0 < i < |events| && Ends(events[i - 1]) ==> events[i].Created?)
  }

  /** Over every run in which no cascade takes the lock from under a worker, each lock serves
      one service until it is gone, and only that service's deletion handler deletes it. */
  lemma EachLockServesOneService(w: World, steps: seq<Step>)
    requires Init(w) && Harmless(w, steps)
    ensures OneServicePerLock(Run(w, steps).events)
  {
    RunKeepsHistory(w, steps);
    var events := Run(w, steps).events;
    forall i, j | 0 <= i < j < |events| && !Ends(events[i]) && (forall m :: i < m < j ==> !Ends(events[m]))
      ensures events[j].Cascaded? || (!events[j].Created? && events[j].key == events[i].key)
    {
      ChainedUntilEnd(events, i, j);
    }
    forall i | 0 < i < |events| && Ends(events[i - 1]) ensures events[i].Created? {
      assert Follows(events[i - 1], events[i]);
    }
  }

  /** A worker that gets to delete the lock deletes its own service's. */
  lemma DeletesOnlyItsOwnLock(w: World, steps: seq<Step>, k: Key)
    requires Init(w) && Harmless(w, steps)
    requires var r := Run(w, steps); Next(r, DeleteLock(k, true)).lock != r.lock
    ensures var r := Run(w, steps); r.lock.Some? && r.lock.value.annotation == Some(Text(k))
  {
    RunKeepsInv(w, steps);
    assert WorkerSound(Run(w, steps), k);
  }

  /** A deletion handler left to itself, from the request on. */
  function HandleDeletion(w: World, k: Key, read: bool, deleted: bool): World {
    Next(Next(Next(Next(w, GetService(k, true)), ReadLockForDeletion(k, read)), CleanUp(k)), DeleteLock(k, deleted))
  }

  /** It deletes the lock exactly when the lock names its service and both its read of the lock
      and the deletion succeed; else it leaves the lock alone. */
  lemma HandlerDeletesIff(w: World, k: Key, read: bool, deleted: bool)
    requires Inv(w) && w.Worker(k).Idle? && k !in w.services && w.lock.Some?
    ensures var r := HandleDeletion(w, k, read, deleted);
            && (r.lock == None <==> read && deleted && w.lock.value.annotation == Some(Text(k)))
            && (r.lock.Some? ==> r.lock == w.lock)
            && r.Worker(k).Idle?
  {
    assert NO_UID !in w.lock.value.owners;
  }

  // -------------------------------------------------------------------- through the gate

  /** What a worker does next, told by where it stands: it fetches the service, reads or creates
      the lock and finishes, or finds the service gone, reads the lock, cleans up and deletes
      it. One key is served by one worker, so nothing starts over before the end. */
  predicate Arrow(from: Phase, s: Step, to: Phase) {
    match s
    case GetService(_, _) => from.Idle? && (to.Fetched? || to.NotFound?)
    case ReadLock(_, _) => from.Fetched? && (to.Idle? || to.MustCreate? || to.Reconciling?)
    case CreateLock(_, _, _, _) => from.MustCreate? && (to.Idle? || to.Reconciling?)
    case Finish(_) => from.Reconciling? && to.Idle?
    case ReadLockForDeletion(_, _) => from.NotFound? && (to.Idle? || to.Unlocking?)
    case CleanUp(_) => from.Unlocking? && to.Unlocked?
    case DeleteLock(_, _) => from.Unlocked? && to.Idle?
    case _ => false
  }

  /** A step moves the worker of its own key along these arrows, and no other worker. */
  lemma WorkersFollowTheArrows(w: World, s: Step, k: Key)
    ensures var r := Next(w, s);
            r.Worker(k) == w.Worker(k) || (IsWorkerStep(s, k) && Arrow(w.Worker(k), s, r.Worker(k)))
  {
  }

  /** Services come with a UID never given out before and go; a worker fetches what is there. */
  lemma ServicesComeAndGo(w: World, k: Key, uid: string, ok: bool)
    ensures var r, isNew := Next(w, CreateService(k, uid)), uid != "" && uid !in w.issued && k !in w.services;
            r.services == (if isNew then w.services[k := uid] else w.services)
            && r.issued == (if isNew then w.issued[uid := Some(k)] else w.issued)
    ensures Next(w, DeleteService(k)).services == w.services - {k}
    ensures w.Worker(k).Idle? && ok ==>
              Next(w, GetService(k, ok)).Worker(k) == if k in w.services then Fetched(w.services[k]) else NotFound
  {
  }

  /** Reading the lock: its owner, by annotation or by UID, goes through the gate, any other
      service is turned away, and where there is no lock it is to be created. */
  lemma ReadingTheLock(w: World, k: Key, u: string, ok: bool)
    requires w.Worker(k) == Fetched(u)
    ensures var r := Next(w, ReadLock(k, ok));
            && r.lock == w.lock
            && r.Worker(k) == (if !ok then Idle
                               else if w.lock == None then MustCreate(u)
                               else if w.lock.value.annotation == Some(k.namespace + "/" + k.name)
                                       || u in w.lock.value.owners then Reconciling(u)
                               else Idle)
            && r.events == w.events + (if r.Worker(k) == Reconciling(u) then [Passed(k)] else [])
  {
  }

  /** Creating the lock: it names the service and is owned by the garbage-collection role; its
      creator passes if it learns of it. Where a lock is there by now, nothing is created. */
  lemma CreatingTheLock(w: World, k: Key, u: string, gc: string, ok: bool, replied: bool)
    requires w.Worker(k) == MustCreate(u) && gc in w.issued && w.issued[gc] == None
    ensures var r, free := Next(w, CreateLock(k, gc, ok, replied)), ok && w.lock == None;
            && r.lock == (if free then Some(Lock(Some(k.namespace + "/" + k.name), [gc])) else w.lock)
            && r.Worker(k) == (if free && replied then Reconciling(u) else Idle)
            && r.events == w.events + (if !free then [] else if replied then [Created(k), Passed(k)] else [Created(k)])
  {
  }

  /** One undisturbed reconcile of a service, and so many of them. */
  function Serve(w: World, k: Key): World {
    Next(Next(Next(w, GetService(k, true)), ReadLock(k, true)), Finish(k))
  }

  function ServeTimes(w: World, k: Key, n: nat): World {
    if n == 0 then w else Serve(ServeTimes(w, k, n - 1), k)
  }

  function Passes(k: Key, n: nat): seq<Event> {
    seq(n, i => Passed(k))
  }

  predicate Owns(w: World, k: Key)
    requires k in w.services && w.lock.Some?
  {
    w.lock.value.annotation == Some(k.namespace + "/" + k.name) || w.services[k] in w.lock.value.owners
  }

  lemma ServesOnce(w: World, k: Key)
    requires k in w.services && w.Worker(k).Idle? && w.lock.Some?
    ensures var r := Serve(w, k);
            && r.services == w.services && r.lock == w.lock && r.Worker(k).Idle?
            && r.events == w.events + (if Owns(w, k) then [Passed(k)] else [])
  {
    var w1 := w.Put(k, Fetched(w.services[k]));
    assert Next(w, GetService(k, true)) == w1;
    ReadingTheLock(w1, k, w.services[k], true);
    assert w.events + [] == w.events;
  }

  /** However often it is reconciled undisturbed, the owner of an existing lock passes every
      time, whether the lock is annotated or an older one, and any other service never. */
  lemma {:induction false} OwnerPassesEveryTime(w: World, k: Key, n: nat)
    requires k in w.services && w.Worker(k).Idle? && w.lock.Some?
    ensures var r := ServeTimes(w, k, n);
            && r.services == w.services && r.lock == w.lock && r.Worker(k).Idle?
            && r.events == w.events + (if Owns(w, k) then Passes(k, n) else [])
  {
    if n == 0 {
      assert w.events + [] == w.events && Passes(k, 0) == [];
    } else {
      OwnerPassesEveryTime(w, k, n - 1);
      ServesOnce(ServeTimes(w, k, n - 1), k);
      assert Passes(k, n) == Passes(k, n - 1) + [Passed(k)];
    }
  }

  // ------------------------------------------------------------------- locks that stay

  /** The service whose worker takes the step, if any. */
  predicate IsWorkerStep(s: Step, k: Key) {
    !s.CreateService? && !s.DeleteService? && !s.IssueUid? && !s.Cascade? && s.k == k
  }

  lemma OthersLeaveIt(w: World, s: Step, k: Key)
    requires Inv(w) && w.lock.Some? && Belongs(w.issued, w.lock.value, k) && s != Cascade && !IsWorkerStep(s, k)
    ensures var w' := Next(w, s); w'.lock == w.lock && w'.events == w.events && Belongs(w'.issued, w.lock.value, k)
  {
    match s
    case CreateService(j, uid) =>
      if uid !in w.issued {
        IssuedBelongs(w.issued, uid, Some(j), w.lock.value);
      }
    case IssueUid(uid) =>
      if uid !in w.issued {
        IssuedBelongs(w.issued, uid, None, w.lock.value);
      }
    case ReadLock(j, ok) => NotTheHolder(w, j, k);
    case DeleteLock(j, ok) => NotTheHolder(w, j, k);
    case _ =>
  }

  lemma NotTheHolder(w: World, j: Key, k: Key)
    requires Inv(w) && w.lock.Some? && Belongs(w.issued, w.lock.value, k) && j != k
    ensures !w.Worker(j).Unlocked?
    ensures w.Worker(j).Fetched? ==> !IsOwnedBy(w.lock.value, j, w.Worker(j).uid)
  {
    assert WorkerSound(w, j);
    assert !Belongs(w.issued, w.lock.value, j);
  }

  /** As long as the owner's own worker does nothing, its lock stays and nobody passes the
      gate; a lock whose deletion failed, its handler having ended, stays in just this way. */
  lemma {:induction false} NobodyElsePasses(w: World, steps: seq<Step>, k: Key)
    requires Inv(w) && w.lock.Some? && Belongs(w.issued, w.lock.value, k)
    requires Cascade !in steps && forall i :: 0 <= i < |steps| ==> !IsWorkerStep(steps[i], k)
    ensures Run(w, steps).lock == w.lock && Run(w, steps).events == w.events
    decreases |steps|
  {
    if steps != [] {
      OthersLeaveIt(w, steps[0], k);
      NextKeepsInv(w, steps[0]);
      NobodyElsePasses(Next(w, steps[0]), steps[1..], k);
    }
  }

  /** A lock without the annotation, as older releases left it, is deleted by no handler:
      the handler's test carries no UID. */
  lemma {:induction false} UnannotatedLockStays(w: World, steps: seq<Step>)
    requires Inv(w) && w.lock.Some? && w.lock.value.annotation == None && Cascade !in steps
    ensures Run(w, steps).lock == w.lock
    decreases |steps|
  {
    if steps != [] {
      if steps[0].DeleteLock? {
        assert WorkerSound(w, steps[0].k);
      }
      NextKeepsInv(w, steps[0]);
      UnannotatedLockStays(Next(w, steps[0]), steps[1..]);
    }
  }

  // ------------------------------------------------------------ what a cascade can break

  const A := RawKey("a", "x")
  const B := RawKey("b", "y")

  /** A lock on A's name is there, A is already gone and B is waiting. */
  const START := World(map[B := "2"], map["2" := Some(B), "g" := None], Some(Lock(Some(Text(A)), ["g"])), map[], [])
  const RELEASE := [GetService(A, true), ReadLockForDeletion(A, true), CleanUp(A), Cascade]
  const TAKE_OVER := [GetService(B, true), ReadLock(B, true), CreateLock(B, "g", true, true), DeleteLock(A, true)]

  lemma StartIsInitial()
    ensures Init(START)
  {
    forall j: Key, k: Key | Belongs(START.issued, START.lock.value, j) && Belongs(START.issued, START.lock.value, k)
      ensures j == k
    {
      TextIsInjective(j, k);
    }
  }

  lemma RunFour(w: World, a: Step, b: Step, c: Step, d: Step)
    ensures Run(w, [a, b, c, d]) == Next(Next(Next(Next(w, a), b), c), d)
  {
    assert [a, b, c, d][1..] == [b, c, d] && [b, c, d][1..] == [c, d] && [c, d][1..] == [d] && [d][1..] == [];
    assert Run(Next(Next(Next(w, a), b), c), [d]) == Next(Next(Next(Next(w, a), b), c), d);
    assert Run(Next(Next(w, a), b), [c, d]) == Next(Next(Next(Next(w, a), b), c), d);
    assert Run(Next(w, a), [b, c, d]) == Next(Next(Next(Next(w, a), b), c), d);
  }

  lemma Releasing(w: World)
    requires w == START
    ensures Next(w, RELEASE[0]) == w.Put(A, NotFound)
    ensures Next(w.Put(A, NotFound), RELEASE[1]) == w.Put(A, Unlocking)
    ensures Next(w.Put(A, Unlocking), RELEASE[2]) == w.Put(A, Unlocked)
  {
    assert w.Put(A, NotFound).Put(A, Unlocking) == w.Put(A, Unlocking);
    assert w.Put(A, Unlocking).Put(A, Unlocked) == w.Put(A, Unlocked);
  }

  lemma AfterRelease()
    ensures Run(START, RELEASE) == START.(lock := None, workers := map[A := Unlocked], events := [Cascaded])
  {
    Releasing(START);
    RunFour(START, RELEASE[0], RELEASE[1], RELEASE[2], RELEASE[3]);
    assert Next(START.Put(A, Unlocked), Cascade)
      == START.(lock := None, workers := map[A := Unlocked], events := [Cascaded]);
  }

  lemma Taking(w: World, v: World)
    requires w == START.(lock := None, workers := map[A := Unlocked], events := [Cascaded])
      && v == w.Put(B, MustCreate("2"))
    ensures Next(Next(w, TAKE_OVER[0]), TAKE_OVER[1]) == v
  {
    assert Next(w, TAKE_OVER[0]) == w.Put(B, Fetched("2"));
  }

  lemma Overtaking(w: World)
    requires w == START.(lock := None, workers := map[A := Unlocked][B := MustCreate("2")], events := [Cascaded])
    ensures var r := Next(Next(w, TAKE_OVER[2]), TAKE_OVER[3]);
            r.lock == None && r.Worker(B) == Reconciling("2")
            && r.events == [Cascaded, Created(B), Passed(B), Deleted(A)]
  {
  }

  lemma AfterTakeOver(w: World)
    requires w == START.(lock := None, workers := map[A := Unlocked], events := [Cascaded])
    ensures var r := Run(w, TAKE_OVER);
            r.lock == None && r.Worker(B) == Reconciling("2")
            && r.events == [Cascaded, Created(B), Passed(B), Deleted(A)]
  {
    Taking(w, w.Put(B, MustCreate("2")));
    Overtaking(w.Put(B, MustCreate("2")));
    RunFour(w, TAKE_OVER[0], TAKE_OVER[1], TAKE_OVER[2], TAKE_OVER[3]);
  }

  /** The garbage collector removes the lock after the handler deleted the lock's owner and
      before the handler deletes the lock; another service creates its own in between, and
      the handler deletes that one while its service is being reconciled. */
  lemma CascadeLetsTheHandlerDeleteAnotherLock()
    ensures exists w: World, steps: seq<Step> ::
              Init(w) && Run(w, steps).Worker(B).Reconciling? && Run(w, steps).lock == None
              && !OneServicePerLock(Run(w, steps).events)
  {
    StartIsInitial();
    AfterRelease();
    AfterTakeOver(Run(START, RELEASE));
    RunAppend(START, RELEASE, TAKE_OVER);
    var events := Run(START, RELEASE + TAKE_OVER).events;
    assert events[2].key == B && events[3].key == A && !Ends(events[2]);
    assert !OneServicePerLock(events);
  }

  /** A service that finds no lock and creates it. */
  function TakeFreeLock(w: World, j: Key, gc: string): World {
    Next(Next(Next(w, GetService(j, true)), ReadLock(j, true)), CreateLock(j, gc, true, true))
  }

  lemma TakesFreeLock(w: World, j: Key, gc: string)
    requires w.lock == None && j in w.services && w.Worker(j).Idle? && gc in w.issued && w.issued[gc] == None
    ensures var r := TakeFreeLock(w, j, gc);
            r.Worker(j).Reconciling? && forall k: Key :: k != j ==> r.Worker(k) == w.Worker(k)
  {
    var w1, w2 := w.Put(j, Fetched(w.services[j])), w.Put(j, MustCreate(w.services[j]));
    assert Next(w, GetService(j, true)) == w1;
    assert Next(w1, ReadLock(j, true)) == w2;
    assert IsOwnedBy(Lock(Some(Text(j)), [gc]), j, w.services[j]);
  }

  /** In general: a cascade lets a waiting service in beside another one exactly when some
      worker relies on the lock at that moment. */
  lemma CascadeBreaksExclusionIff(w: World, j: Key, gc: string)
    requires j in w.services && w.Worker(j).Idle? && gc in w.issued && w.issued[gc] == None
    ensures var r := TakeFreeLock(Next(w, Cascade), j, gc);
            && Holds(r.Worker(j))
            && ((exists k: Key :: k != j && Holds(r.Worker(k))) <==> !Quiet(w))
  {
    var v := Next(w, Cascade);
    TakesFreeLock(v, j, gc);
    assert forall k: Key :: v.Worker(k) == w.Worker(k);
  }

  lemma {:induction false} RunAppend(w: World, first: seq<Step>, rest: seq<Step>)
    ensures Run(w, first + rest) == Run(Run(w, first), rest)
    decreases |first|
  {
    if first == [] {
      assert first + rest == rest;
    } else {
      assert (first + rest)[1..] == first[1..] + rest;
      RunAppend(Next(w, first[0]), first[1..], rest);
    }
  }
}
