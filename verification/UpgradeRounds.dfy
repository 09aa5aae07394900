/** What the upgrade gets done when every call succeeds and each workload follows its request:
    one service after the other, down, drop, up, to the end. */
module UpgradeRounds {
  import opened UpgradeBarrier

  /** Nothing fails, nothing is skipped, and no workload comes or goes. */
  predicate Undisturbed(steps: seq<Step>) {
    forall s :: s in steps ==>
      match s
      case Begin => true
      case Wait => true
      case Finish => true
      case Get(_, ok) => ok
      case Update(_, applied, replied) => applied && replied
      case Poll(_, ok) => ok
      case DropDatabases(ok) => ok
      case Replicate(_, _) => true
      case _ => false
  }

  lemma {:induction false} RunConcat(w: World, a: seq<Step>, b: seq<Step>)
    ensures Run(w, a + b) == Run(Run(w, a), b)
    ensures Undisturbed(a) && Undisturbed(b) ==> Undisturbed(a + b)
    decreases |a|
  {
    if a == [] {
      assert a + b == b;
    } else {
      assert (a + b)[1..] == a[1..] + b;
      RunConcat(Next(w, a[0]), a[1..], b);
    }
  }

  lemma RunOne(w: World, s: Step)
    ensures Run(w, [s]) == Next(w, s)
  {
    assert [s][1..] == [];
  }

  lemma Then(w: World, steps: seq<Step>, s: Step) returns (more: seq<Step>)
    requires Undisturbed(steps) && Undisturbed([s])
    ensures Undisturbed(more) && Run(w, more) == Next(Run(w, steps), s)
  {
    more := steps + [s];
    RunConcat(w, steps, [s]);
    RunOne(Run(w, steps), s);
  }

  // ------------------------------------------------------------------------- one group

  function States(total: nat, n: nat): seq<Worker> {
    seq(total, i => if i < n then Finished else Fetching)
  }

  /** The group at work, its first `n` workers done. */
  predicate Group(w: World, n: nat) {
    && w.next < |w.services| && n <= |w.services[w.next]|
    && (w.phase == Down(States(|w.services[w.next]|, n)) || w.phase == Up(States(|w.services[w.next]|, n)))
  }

  predicate Later(w: World, r: World, n: nat) {
    Group(r, n) && r.phase.Up? == w.phase.Up? && r == w.(phase := r.phase, loads := r.loads)
  }

  lemma ExistingIsDone(w: World, i: nat) returns (steps: seq<Step>)
    requires Group(w, i) && i < |w.services[w.next]| && w.services[w.next][i] in w.loads
    ensures var r := Run(w, steps);
            && Undisturbed(steps) && Later(w, r, i + 1)
            && r.loads == w.loads[w.services[w.next][i] := Load(w.Target(), w.Target())]
  {
    var id, t, all := w.services[w.next][i], w.Target(), |w.services[w.next]|;
    assert w.Runs(i) && w.phase.workers[i] == Fetching;
    RunOne(w, Get(i, true));
    steps := Then(w, [Get(i, true)], Update(i, true, true));
    var w2 := w.Set(i, Polling).(loads := w.loads[id := w.loads[id].(spec := t)]);
    assert Run(w, steps) == w2 by {
      assert Next(w, Get(i, true)) == w.Set(i, Updating);
      assert w.phase.workers[i := Updating][i := Polling] == w.phase.workers[i := Polling];
    }
    steps := Then(w, steps, Replicate(id, t));
    var w3 := w2.(loads := w.loads[id := Load(t, t)]);
    assert Run(w, steps) == w3;
    steps := Then(w, steps, Poll(i, true));
    assert States(all, i)[i := Polling][i := Finished] == States(all, i + 1);
  }

  lemma MissingIsDone(w: World, i: nat)
    requires Group(w, i) && i < |w.services[w.next]| && w.services[w.next][i] !in w.loads
    ensures var r := Next(w, Get(i, true)); Later(w, r, i + 1) && r.loads == w.loads
  {
    assert w.Runs(i) && w.phase.workers[i] == Fetching;
    assert States(|w.services[w.next]|, i)[i := Finished] == States(|w.services[w.next]|, i + 1);
  }

  lemma GroupIsDone(w: World, n: nat) returns (steps: seq<Step>)
    requires Group(w, 0) && n <= |w.services[w.next]|
    ensures var r := Run(w, steps);
            && Undisturbed(steps) && Later(w, r, n)
            && forall i :: 0 <= i < n ==> Settled(r.loads, w.services[w.next][i], w.Target())
  {
    steps := [];
    for i := 0 to n
      invariant Undisturbed(steps) && Later(w, Run(w, steps), i)
      invariant forall j :: 0 <= j < i ==> Settled(Run(w, steps).loads, w.services[w.next][j], w.Target())
    {
      var v := Run(w, steps);
      if v.services[v.next][i] in v.loads {
        var more := ExistingIsDone(v, i);
        RunConcat(w, steps, more);
        steps := steps + more;
      } else {
        MissingIsDone(v, i);
        steps := Then(w, steps, Get(i, true));
      }
    }
  }

  lemma Joins(w: World)
    requires w.next < |w.services| && Group(w, |w.services[w.next]|)
    ensures Next(w, Wait) == if w.phase.Down? then w.(phase := Dropping)
                             else w.(phase := Checking, raised := w.raised + {w.next}, next := w.next + 1)
  {
    forall s | s in w.phase.workers ensures s.Finished? {
      var i :| 0 <= i < |w.phase.workers| && w.phase.workers[i] == s;
    }
  }

  // ----------------------------------------------------------------------- one service

  /** On to the next service, this one's databases dropped and its workloads up. */
  predicate Advances(w: World, r: World)
    requires w.next < |w.services|
  {
    && r.phase == Checking && r.next == w.next + 1 && r.services == w.services
    && r.skips == w.skips && r.drops == w.drops + [w.next] && r.raised == w.raised + {w.next}
    && forall i :: 0 <= i < |w.services[w.next]| ==> Settled(r.loads, w.services[w.next][i], 1)
  }

  lemma Halfway(w: World) returns (steps: seq<Step>)
    requires w.phase.Checking? && w.next < |w.services|
    ensures var r := Run(w, steps);
            Undisturbed(steps) && r == w.(phase := Up(Fresh(|w.services[w.next]|)), loads := r.loads,
                                          drops := w.drops + [w.next])
  {
    var n := |w.services[w.next]|;
    assert Fresh(n) == States(n, 0);
    RunOne(w, Begin);
    var down := GroupIsDone(Next(w, Begin), n);
    RunConcat(w, [Begin], down);
    Joins(Run(w, [Begin] + down));
    steps := Then(w, [Begin] + down, Wait);
    steps := Then(w, steps, DropDatabases(true));
  }

  /** One service undisturbed, from its check to the next one's. */
  lemma UndisturbedRound(w: World) returns (steps: seq<Step>)
    requires w.phase.Checking? && w.next < |w.services|
    ensures Undisturbed(steps) && Advances(w, Run(w, steps))
  {
    var n := |w.services[w.next]|;
    assert Fresh(n) == States(n, 0);
    steps := Halfway(w);
    var half := Run(w, steps);
    var up := GroupIsDone(half, n);
    RunConcat(w, steps, up);
    Joins(Run(half, up));
    steps := Then(w, steps + up, Wait);
  }

  /** A run in which no call fails and nobody interferes drops every service's databases, each
      in its turn, and succeeds. */
  lemma UndisturbedUpgradeSucceeds(w: World) returns (steps: seq<Step>)
    requires Init(w)
    ensures var r := Run(w, steps);
            Undisturbed(steps) && r.phase.Succeeded? && r.skips == [] && r.drops == seq(|w.services|, i => i)
  {
    steps := [];
    for n := 0 to |w.services|
      invariant var r := Run(w, steps);
                Undisturbed(steps) && r.phase == Checking && r.next == n && r.services == w.services
                && r.skips == [] && r.drops == seq(n, i => i)
    {
      var v := Run(w, steps);
      var more := UndisturbedRound(v);
      RunConcat(w, steps, more);
      steps := steps + more;
      assert seq(n + 1, i => i) == seq(n, i => i) + [n];
    }
    steps := Then(w, steps, Finish);
  }
}
