/** The InfluxDB upgrade: for each service scale every workload down, wait for all of them,
    drop the old databases, scale up again. One worker per workload, each step one call,
    interleaved with the cluster's own replica controller. */
module UpgradeBarrier {

  type Id = string

  /** Requested and actual replicas of a deployment or stateful set. */
  datatype Load = Load(spec: int, status: int)

  datatype Worker = Fetching | Updating | Polling | Finished | Broken

  datatype Phase =
    | Checking
    | Down(workers: seq<Worker>)
    | Dropping
    | Up(workers: seq<Worker>)
    | Succeeded
    | Failed

  /** `services` lists each service's workloads; `skips` the services that needed no upgrade,
      `drops` those whose databases the run set about dropping, `raised` those scaled up again
      to the end. */
  datatype World = World(
    services: seq<seq<Id>>, next: nat, phase: Phase, loads: map<Id, Load>,
    skips: seq<nat>, drops: seq<nat>, raised: set<nat>)
  {
    function Target(): int {
      if phase.Up? then 1 else 0
    }

    predicate HasWorkers() {
      phase.Down? || phase.Up?
    }

    predicate Runs(i: nat) {
      HasWorkers() && next < |services| && |phase.workers| == |services[next]| && i < |phase.workers|
    }

    function Id(i: nat): Id
      requires Runs(i)
    {
      services[next][i]
    }

    function Set(i: nat, s: Worker): World
      requires Runs(i)
    {
      this.(phase := if phase.Down? then Down(phase.workers[i := s]) else Up(phase.workers[i := s]))
    }
  }

  function Fresh(n: nat): seq<Worker> {
    seq(n, i => Fetching)
  }

  /** `ok` is whether the call succeeds; an update may also take effect and its reply be lost.
      The replica controller moves the actual count towards the requested one. `Create` is a
      workload appearing while the upgrade is under way. */
  datatype Step =
    | Skip
    | CheckFails
    | Begin
    | Finish
    | Get(i: nat, ok: bool)
    | Update(i: nat, applied: bool, replied: bool)
    | Poll(i: nat, ok: bool)
    | Wait
    | DropDatabases(ok: bool)
    | Replicate(id: Id, status: int)
    | Remove(id: Id)
    | Create(id: Id, load: Load)

  predicate Towards(l: Load, status: int) {
    l.status <= status <= l.spec || l.spec <= status <= l.status
  }

  function Next(w: World, s: Step): World {
    match s
    case Skip =>
      if w.phase.Checking? && w.next < |w.services| then w.(skips := w.skips + [w.next], next := w.next + 1) else w
    case CheckFails =>
      if w.phase.Checking? && w.next < |w.services| then w.(phase := Failed) else w
    case Begin =>
      if w.phase.Checking? && w.next < |w.services| then w.(phase := Down(Fresh(|w.services[w.next]|))) else w
    case Finish =>
      if w.phase.Checking? && w.next == |w.services| then w.(phase := Succeeded) else w
    case Get(i, ok) =>
      if !w.Runs(i) || !w.phase.workers[i].Fetching? then w
      else if !ok then w.Set(i, Broken)
      else w.Set(i, if w.Id(i) in w.loads then Updating else Finished)
    case Update(i, applied, replied) =>
      if !w.Runs(i) || !w.phase.workers[i].Updating? then w
      else if !applied || w.Id(i) !in w.loads then w.Set(i, Broken)
      else w.Set(i, if replied then Polling else Broken)
            .(loads := w.loads[w.Id(i) := w.loads[w.Id(i)].(spec := w.Target())])
    case Poll(i, ok) =>
      if !w.Runs(i) || !w.phase.workers[i].Polling? then w
      else if !ok || w.Id(i) !in w.loads then w.Set(i, Broken)
      else if w.loads[w.Id(i)].status == w.Target() then w.Set(i, Finished)
      else w
    case Wait => Joined(w)
    case DropDatabases(ok) =>
      if !w.phase.Dropping? || w.next >= |w.services| then w
      else w.(drops := w.drops + [w.next], phase := if ok then Up(Fresh(|w.services[w.next]|)) else Failed)
    case Replicate(id, status) =>
      if id !in w.loads || !Towards(w.loads[id], status) then w
      else w.(loads := w.loads[id := w.loads[id].(status := status)])
    case Remove(id) => w.(loads := w.loads - {id})
    case Create(id, load) =>
      if id in w.loads then w else w.(loads := w.loads[id := load])
  }

  /** The wait for the group: over when every worker is, and an error if any of them failed. */
  function Joined(w: World): World {
    if !w.HasWorkers() || exists s :: s in w.phase.workers && !s.Finished? && !s.Broken? then w
    else if Broken in w.phase.workers then w.(phase := Failed)
    else if w.phase.Down? then w.(phase := Dropping)
    else w.(phase := Checking, raised := w.raised + {w.next}, next := w.next + 1)
  }

  function Run(w: World, steps: seq<Step>): World
    decreases |steps|
  {
    if steps == [] then w else Run(Next(w, steps[0]), steps[1..])
  }

  ghost predicate Init(w: World) {
    w.phase == Checking && w.next == 0 && w.skips == [] && w.drops == [] && w.raised == {}
  }

  // --------------------------------------------------------------------- the invariant

  /** Gone, or requested and actually there as often as wanted. */
  predicate Settled(loads: map<Id, Load>, id: Id, n: int) {
    id in loads ==> loads[id] == Load(n, n)
  }

  predicate Requested(loads: map<Id, Load>, id: Id, n: int) {
    id in loads ==> loads[id].spec == n
  }

  ghost predicate AllSettled(loads: map<Id, Load>, ids: seq<Id>, n: int) {
    forall i :: 0 <= i < |ids| ==> Settled(loads, ids[i], n)
  }

  /** Once a worker has made its request, it stands until the group is joined. */
  predicate WorkerSound(loads: map<Id, Load>, id: Id, s: Worker, n: int) {
    && (s == Polling ==> Requested(loads, id, n))
    && (s == Finished ==> Settled(loads, id, n))
  }

  ghost predicate PhaseSound(w: World) {
    && (w.HasWorkers() ==>
          && w.next < |w.services| && |w.phase.workers| == |w.services[w.next]|
          && forall i :: 0 <= i < |w.phase.workers| ==>
               WorkerSound(w.loads, w.services[w.next][i], w.phase.workers[i], w.Target()))
    && (w.phase.Dropping? ==> w.next < |w.services| && AllSettled(w.loads, w.services[w.next], 0))
  }

  /** A workload the service under way is working on. */
  predicate Current(w: World, id: Id) {
    w.next < |w.services| && (w.HasWorkers() || w.phase.Dropping?) && id in w.services[w.next]
  }

  /** Services done with are at one replica, apart from workloads being scaled again. */
  ghost predicate RaisedSound(w: World) {
    w.phase.Failed? || forall k, i :: k in w.raised && k < |w.services| && 0 <= i < |w.services[k]| ==>
      Current(w, w.services[k][i]) || Settled(w.loads, w.services[k][i], 1)
  }

  ghost predicate DropsSound(w: World) {
    w.phase.Failed? || forall k :: k in w.drops ==> k in w.raised || (k == w.next && w.phase.Up?)
  }

  ghost predicate Inv(w: World) {
    && PhaseSound(w) && RaisedSound(w) && DropsSound(w)
    && w.next <= |w.services| && forall k :: k in w.raised ==> k < w.next
  }

  // ------------------------------------------------------------- workloads that appear

  /** The workload appears before any worker of the group under way has looked for it, or is
      none of that group's. */
  predicate InTime(w: World, id: Id) {
    Current(w, id) ==>
      w.HasWorkers()
      && forall i :: 0 <= i < |w.phase.workers| && w.Runs(i) && w.Id(i) == id ==> w.phase.workers[i].Fetching?
  }

  /** It belongs to no service that is done with. */
  predicate NotDone(w: World, id: Id) {
    forall k :: k in w.raised && k < |w.services| && id in w.services[k] ==> Current(w, id)
  }

  /** Every workload that appears does so in time; `strictly`, also for none that is done. */
  ghost predicate Timely(w: World, steps: seq<Step>, strictly: bool)
    decreases |steps|
  {
    steps == [] || (&& (steps[0].Create? ==> InTime(w, steps[0].id) && (strictly ==> NotDone(w, steps[0].id)))
                    && Timely(Next(w, steps[0]), steps[1..], strictly))
  }

  // --------------------------------------------------------------- step by step

  lemma UpdateKeepsInv(w: World, s: Step)
    requires s.Update?
    ensures PhaseSound(w) ==> PhaseSound(Next(w, s))
    ensures Inv(w) ==> Inv(Next(w, s))
  {
  }

  lemma WorkerKeepsInv(w: World, s: Step)
    requires s.Get? || s.Poll?
    ensures PhaseSound(w) ==> PhaseSound(Next(w, s))
    ensures Inv(w) ==> Inv(Next(w, s))
  {
  }

  lemma WaitKeepsInv(w: World)
    ensures PhaseSound(w) ==> PhaseSound(Joined(w))
    ensures Inv(w) ==> Inv(Joined(w))
  {
  }

  /** The replica controller and whoever deletes workloads leave requests alone and settled
      workloads settled. */
  lemma ClusterKeepsInv(w: World, s: Step)
    requires s.Replicate? || s.Remove?
    ensures PhaseSound(w) ==> PhaseSound(Next(w, s))
    ensures Inv(w) ==> Inv(Next(w, s))
  {
  }

  lemma CreateKeepsInv(w: World, id: Id, load: Load)
    requires InTime(w, id)
    ensures PhaseSound(w) ==> PhaseSound(Next(w, Create(id, load)))
    ensures Inv(w) && NotDone(w, id) ==> Inv(Next(w, Create(id, load)))
  {
    var w' := Next(w, Create(id, load));
    if PhaseSound(w) && w.HasWorkers() {
      forall i | 0 <= i < |w'.phase.workers|
        ensures WorkerSound(w'.loads, w'.services[w'.next][i], w'.phase.workers[i], w'.Target())
      {
        assert w.Runs(i) && WorkerSound(w.loads, w.services[w.next][i], w.phase.workers[i], w.Target());
      }
    }
  }

  /** Every single step keeps the group under way sound, a workload appearing if it does so in
      time. */
  lemma NextKeepsPhaseSound(w: World, s: Step)
    requires PhaseSound(w) && (s.Create? ==> InTime(w, s.id))
    ensures PhaseSound(Next(w, s))
  {
    if s.Get? || s.Poll? {
      WorkerKeepsInv(w, s);
    } else if s.Update? {
      UpdateKeepsInv(w, s);
    } else if s.Wait? {
      WaitKeepsInv(w);
    } else if s.Replicate? || s.Remove? {
      ClusterKeepsInv(w, s);
    } else if s.Create? {
      CreateKeepsInv(w, s.id, s.load);
    }
  }

  /** And the services done with, if it belongs to none of them. */
  lemma NextKeepsInv(w: World, s: Step)
    requires Inv(w) && (s.Create? ==> InTime(w, s.id) && NotDone(w, s.id))
    ensures Inv(Next(w, s))
  {
    if s.Get? || s.Poll? {
      WorkerKeepsInv(w, s);
    } else if s.Update? {
      UpdateKeepsInv(w, s);
    } else if s.Wait? {
      WaitKeepsInv(w);
    } else if s.Replicate? || s.Remove? {
      ClusterKeepsInv(w, s);
    } else if s.Create? {
      CreateKeepsInv(w, s.id, s.load);
    }
  }

  lemma {:induction false} RunKeepsPhaseSound(w: World, steps: seq<Step>)
    requires PhaseSound(w) && Timely(w, steps, false)
    ensures PhaseSound(Run(w, steps))
    decreases |steps|
  {
    if steps != [] {
      NextKeepsPhaseSound(w, steps[0]);
      RunKeepsPhaseSound(Next(w, steps[0]), steps[1..]);
    }
  }

  lemma {:induction false} RunKeepsInv(w: World, steps: seq<Step>)
    requires Inv(w) && Timely(w, steps, true)
    ensures Inv(Run(w, steps))
    decreases |steps|
  {
    if steps != [] {
      NextKeepsInv(w, steps[0]);
      RunKeepsInv(Next(w, steps[0]), steps[1..]);
    }
  }

  // ---------------------------------------------------------------------- the promises

  /** However the workers, the replica controller and failures interleave, and whatever
      workloads appear in time, databases are dropped only while every existing workload of
      the service is requested at zero replicas and actually at zero. */
  lemma DropsOnlyWhileDown(w: World, steps: seq<Step>, ok: bool)
    requires Init(w) && Timely(w, steps, false)
    requires var r := Run(w, steps); Next(r, DropDatabases(ok)).drops != r.drops
    ensures var r := Run(w, steps); r.next < |r.services| && AllSettled(r.loads, r.services[r.next], 0)
  {
    RunKeepsPhaseSound(w, steps);
  }

  lemma {:induction false} DropsAreServices(w: World, steps: seq<Step>)
    requires forall k :: k in w.drops ==> k < |w.services|
    ensures var r := Run(w, steps); r.services == w.services && forall k :: k in r.drops ==> k < |r.services|
    decreases |steps|
  {
    if steps != [] {
      DropsAreServices(Next(w, steps[0]), steps[1..]);
    }
  }

  /** A run that succeeds leaves every workload of every service it dropped databases for at
      one replica, requested and actual. */
  lemma SuccessLeavesAllUp(w: World, steps: seq<Step>, k: nat)
    requires Init(w) && Timely(w, steps, true) && Run(w, steps).phase.Succeeded? && k in Run(w, steps).drops
    ensures var r := Run(w, steps); k < |r.services| && AllSettled(r.loads, r.services[k], 1)
  {
    var r := Run(w, steps);
    RunKeepsInv(w, steps);
    DropsAreServices(w, steps);
    forall i | 0 <= i < |r.services[k]| ensures Settled(r.loads, r.services[k][i], 1) {
      assert Current(r, r.services[k][i]) || Settled(r.loads, r.services[k][i], 1);
    }
  }

  /** A workload no service lists keeps its requested replicas, as long as it exists. */
  lemma {:induction false} OthersKeepTheirRequest(w: World, steps: seq<Step>, id: Id)
    requires forall k :: 0 <= k < |w.services| ==> id !in w.services[k]
    requires forall k :: 0 <= k < |steps| ==> !(steps[k].Create? && steps[k].id == id)
    ensures var r := Run(w, steps); id in r.loads ==> id in w.loads && r.loads[id].spec == w.loads[id].spec
    decreases |steps|
  {
    if steps != [] {
      OthersKeepTheirRequest(Next(w, steps[0]), steps[1..], id);
    }
  }

  // ------------------------------------------------------------ what the barrier assumes

  /** The group scaling down is done, or has been joined. */
  predicate DownDone(w: World) {
    w.phase.Dropping? || (w.phase.Down? && forall s :: s in w.phase.workers ==> s.Finished?)
  }

  lemma DownDoneIsSettled(w: World)
    requires PhaseSound(w) && DownDone(w)
    ensures w.next < |w.services| && AllSettled(w.loads, w.services[w.next], 0)
  {
    if w.phase.Down? {
      forall i | 0 <= i < |w.services[w.next]| ensures Settled(w.loads, w.services[w.next][i], 0) {
        assert w.phase.workers[i] in w.phase.workers;
        assert WorkerSound(w.loads, w.services[w.next][i], w.phase.workers[i], 0);
      }
    }
  }

  /** A workload that appears once all workers are done is not waited for: the group is joined
      all the same, and the promise is kept exactly if the workload happens to be down. */
  lemma TooLateIff(w: World, id: Id, load: Load)
    requires PhaseSound(w) && DownDone(w) && id !in w.loads && id in w.services[w.next]
    ensures var r := Joined(Next(w, Create(id, load)));
            r.phase.Dropping? && (AllSettled(r.loads, r.services[r.next], 0) <==> load == Load(0, 0))
  {
    DownDoneIsSettled(w);
    var i :| 0 <= i < |w.services[w.next]| && w.services[w.next][i] == id;
    var r := Joined(Next(w, Create(id, load)));
    assert Settled(r.loads, r.services[r.next][i], 0) <==> load == Load(0, 0);
    forall j | 0 <= j < |w.services[w.next]| ensures Settled(w.loads, w.services[w.next][j], 0) {
    }
  }

  const LATE := World([["a"]], 0, Checking, map[], [], [], {})

  /** The late appearance itself: from the start, the worker finds no workload, the group is
      done, and the workload appears before the drop. */
  lemma LateWorkloadIsNotWaitedFor()
    ensures var r := Next(Next(Next(Next(LATE, Begin), Get(0, true)), Wait), Create("a", Load(3, 3)));
            Init(LATE) && r.phase.Dropping? && !AllSettled(r.loads, r.services[r.next], 0)
  {
    var w1, w2 := LATE.(phase := Down(Fresh(1))), LATE.(phase := Down([Finished]));
    assert Next(LATE, Begin) == w1;
    assert Next(w1, Get(0, true)) == w2 by {
      assert w1.Runs(0) && Fresh(1)[0 := Finished] == [Finished];
    }
    assert Next(w2, Wait) == LATE.(phase := Dropping);
    TooLateIff(LATE.(phase := Dropping), "a", Load(3, 3));
  }
}
