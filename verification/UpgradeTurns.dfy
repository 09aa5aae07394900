/** How the upgrade goes from service to service: what ends it, and that a run that succeeds has
    seen to each of them. */
module UpgradeTurns {
  import opened UpgradeBarrier

  // ---------------------------------------------------------------- failures and the end

  /** A call that fails breaks its worker, also when an update took effect and only its reply
      was lost; a workload that has vanished since breaks it too. */
  lemma FailedCallsBreak(w: World, i: nat)
    requires w.Runs(i)
    ensures var s, gone := w.phase.workers[i], w.Id(i) !in w.loads;
            && (s.Fetching? ==> Next(w, Get(i, false)) == w.Set(i, Broken))
            && (s.Updating? ==> Next(w, Update(i, false, true)) == w.Set(i, Broken))
            && (s.Updating? ==> forall a :: Next(w, Update(i, a, false)).phase == w.Set(i, Broken).phase)
            && (s.Updating? && gone ==> Next(w, Update(i, true, true)) == w.Set(i, Broken))
            && (s.Polling? ==> Next(w, Poll(i, false)) == w.Set(i, Broken))
            && (s.Polling? && gone ==> Next(w, Poll(i, true)) == w.Set(i, Broken))
  {
  }

  /** The group is waited for to the last worker, and one broken worker fails the run; so do a
      check and a drop that fail, and nothing else ends a run before its last service. */
  lemma FailuresEndTheRun(w: World, s: Step)
    ensures var r := Next(w, s);
            r.phase.Failed? && !w.phase.Failed? <==>
              || (s.CheckFails? && w.phase.Checking? && w.next < |w.services|)
              || (s == DropDatabases(false) && w.phase.Dropping? && w.next < |w.services|)
              || (s.Wait? && w.HasWorkers() && Broken in w.phase.workers
                  && forall x :: x in w.phase.workers ==> x == Finished || x == Broken)
    ensures Next(w, s).phase.Succeeded? && !w.phase.Succeeded? <==>
              s.Finish? && w.phase.Checking? && w.next == |w.services|
  {
  }

  /** The check of the next service: not needed, it is skipped and the next one's turn comes;
      needed, a worker starts on each of its workloads; failed, so does the run. */
  lemma CheckDecides(w: World)
    requires w.phase.Checking? && w.next < |w.services|
    ensures Next(w, Skip) == World(w.services, w.next + 1, Checking, w.loads, w.skips + [w.next], w.drops, w.raised)
    ensures Next(w, CheckFails) == World(w.services, w.next, Failed, w.loads, w.skips, w.drops, w.raised)
    ensures Next(w, Begin) == w.(phase := Next(w, Begin).phase) && Next(w, Begin).phase.Down?
    ensures var workers := Next(w, Begin).phase.workers;
            |workers| == |w.services[w.next]| && forall i :: 0 <= i < |workers| ==> workers[i] == Fetching
  {
  }

  // ------------------------------------------------------------------- every service's turn

  ghost predicate Increasing(s: seq<nat>) {
    forall i, j :: 0 <= i < j < |s| ==> s[i] < s[j]
  }

  /** Each service before the next one was skipped or upgraded, once and in order. */
  ghost predicate Served(w: World) {
    w.phase.Failed? ||
    (&& Increasing(w.skips) && Increasing(w.drops)
     && (forall k :: k in w.skips ==> k < w.next)
     && (forall k :: k in w.drops ==> k < w.next || (k == w.next && w.phase.Up?))
     && (forall k :: 0 <= k < w.next ==> (k in w.skips <==> k !in w.drops))
     && (w.phase.Up? ==> w.next in w.drops && w.next < |w.services|)
     && (w.phase.Succeeded? ==> w.next == |w.services|))
  }

  lemma Extends(s: seq<nat>, n: nat)
    requires Increasing(s) && forall k :: k in s ==> k < n
    ensures Increasing(s + [n]) && forall k :: k in s + [n] <==> k in s || k == n
  {
    forall i, j | 0 <= i < j < |s + [n]| ensures (s + [n])[i] < (s + [n])[j] {
      assert (s + [n])[i] in s;
    }
  }

  lemma NextKeepsServed(w: World, s: Step)
    requires Served(w)
    ensures Served(Next(w, s))
  {
    if s.Skip? && w.phase.Checking? {
      Extends(w.skips, w.next);
    } else if s.DropDatabases? && w.phase.Dropping? {
      Extends(w.drops, w.next);
    }
  }

  lemma {:induction false} RunKeepsServed(w: World, steps: seq<Step>)
    requires Served(w)
    ensures Served(Run(w, steps))
    decreases |steps|
  {
    if steps != [] {
      NextKeepsServed(w, steps[0]);
      RunKeepsServed(Next(w, steps[0]), steps[1..]);
    }
  }

  lemma {:induction false} ServicesStay(w: World, steps: seq<Step>)
    ensures Run(w, steps).services == w.services
    decreases |steps|
  {
    if steps != [] {
      ServicesStay(Next(w, steps[0]), steps[1..]);
    }
  }

  /** A run that succeeds has seen to every service: each was skipped by its own check or had
      its databases dropped, never both, each once and in order. */
  lemma SuccessServesEveryService(w: World, steps: seq<Step>, k: nat)
    requires Init(w) && Run(w, steps).phase.Succeeded? && k < |w.services|
    ensures var r := Run(w, steps);
            && (k in r.skips <==> k !in r.drops)
            && Increasing(r.skips) && Increasing(r.drops)
            && forall m :: m in r.skips || m in r.drops ==> m < |w.services|
  {
    RunKeepsServed(w, steps);
    ServicesStay(w, steps);
  }
}
