/** The keycode controller as it is written: objects updated step by step, caches keyed by
    name, deferred functions run in reverse order. Each method is proved to compute what
    the functions of KeycodeHandlers and KeycodeReconcile say. */
module KeycodeController {
  import opened Options
  import opened KeycodeTypes
  import opened KeycodeReconcile
  import H = KeycodeHandlers

  datatype NamespacedName = NamespacedName(namespace: string, name: string)

  /** The keycode repository behind the datahub client. `log` holds the entries of the
      reconcile in progress. */
  class Datahub {
    var codes: seq<string>
    ghost var log: seq<Entry>

    method ListKeycodes(ok: bool) returns (err: bool, details: seq<string>)
      ensures err == !ok
      ensures !err ==> details == codes
    {
      err := !ok;
      details := if ok then codes else [];
    }

    method DeleteKeycode(code: string, ok: bool) returns (err: bool)
      modifies this
      ensures err == !ok
      ensures codes == if ok then H.WithoutCode(old(codes), code) else old(codes)
      ensures log == if ok then old(log) + [Deleted(code)] else old(log)
    {
      err := !ok;
      if ok {
        codes := H.WithoutCode(codes, code);
        log := log + [Deleted(code)];
      }
    }

    method SendKeycode(code: string, ok: bool) returns (err: bool)
      modifies this
      ensures err == !ok
      ensures codes == if ok then old(codes) + [code] else old(codes)
      ensures log == if ok then old(log) + [Sent(code)] else old(log)
    {
      err := !ok;
      if ok {
        codes := codes + [code];
        log := log + [Sent(code)];
      }
    }
  }

  /** An AlamedaService held in memory. */
  class AlamedaService {
    var spec: Spec
    var status: Status
    var deleting: bool

    function Value(): Service
      reads this
    {
      Service(spec, status, deleting)
    }

    constructor (svc: Service)
      ensures Value() == svc
    {
      spec, status, deleting := svc.spec, svc.status, svc.deleting;
    }
  }

  /** The stored object of the key being served. */
  class ApiServer {
    var stored: Service
  }

  class ReconcileAlamedaServiceKeycode {
    var firstRetryTimeCache: map<NamespacedName, Option<int>>
    var eventChanMap: map<string, seq<Event>>
    var lastReconcileTaskMap: map<string, Task>

    function FirstRetryTime(key: NamespacedName): Option<int>
      reads this`firstRetryTimeCache
    {
      if key in firstRetryTimeCache then firstRetryTimeCache[key] else None
    }

    function EventChan(namespace: string): seq<Event>
      reads this`eventChanMap
    {
      if namespace in eventChanMap then eventChanMap[namespace] else []
    }

    function LastReconcileTask(namespace: string): Task
      reads this`lastReconcileTaskMap
    {
      if namespace in lastReconcileTaskMap then lastReconcileTaskMap[namespace] else Task("", Default)
    }

    /** What the handlers read and write of the world: repository, channel and log. */
    ghost function StoreOf(repo: Datahub, namespace: string): H.Store
      reads this`eventChanMap, repo
    {
      H.Store(repo.codes, EventChan(namespace), repo.log)
    }

    /** The channels of other namespaces are as they were. */
    twostate predicate OtherChannelsUnchanged(namespace: string)
      reads this`eventChanMap
    {
      forall n :: n != namespace ==> EventChan(n) == old(EventChan(n))
    }

    /** Sends on the buffered channel; `blocked` when there is no room and no reader. */
    method AddEvent(namespace: string, e: Event) returns (blocked: bool)
      modifies this`eventChanMap
      ensures blocked == (|old(EventChan(namespace))| >= H.CHANNEL_CAPACITY)
      ensures EventChan(namespace) == if blocked then old(EventChan(namespace)) else old(EventChan(namespace)) + [e]
      ensures OtherChannelsUnchanged(namespace)
    {
      if namespace !in eventChanMap {
        eventChanMap := eventChanMap[namespace := []];
      }
      blocked := |eventChanMap[namespace]| >= H.CHANNEL_CAPACITY;
      if !blocked {
        eventChanMap := eventChanMap[namespace := eventChanMap[namespace] + [e]];
      }
    }

    /** The loop over listed keycodes that both handlers run. */
    method DeleteKeycodes(repo: Datahub, namespace: string, details: seq<string>, okDeletes: nat, blame: H.Blame)
      returns (outcome: H.Outcome)
      modifies this`eventChanMap, repo
      ensures (StoreOf(repo, namespace), outcome)
        == H.DeleteAll(old(StoreOf(repo, namespace)), details, okDeletes, blame)
      ensures OtherChannelsUnchanged(namespace)
    {
      var budget := okDeletes;
      for i := 0 to |details|
        invariant H.DeleteAll(StoreOf(repo, namespace), details[i..], budget, blame)
               == H.DeleteAll(old(StoreOf(repo, namespace)), details, okDeletes, blame)
        invariant OtherChannelsUnchanged(namespace)
      {
        assert details[i..][1..] == details[i + 1..];
        var codeNumber := details[i];
        if codeNumber == "" {
          continue;
        }
        var err := repo.DeleteKeycode(codeNumber, budget > 0);
        if err {
          var full := AddEvent(namespace, H.FailedDelete(blame, codeNumber));
          return if full then H.Blocked else H.Failed;
        }
        budget := budget - 1;
        var full := AddEvent(namespace, Event(DeleteSucceeded, codeNumber));
        if full {
          return H.Blocked;
        }
      }
      return H.Finished;
    }

    method HandleEmptyKeycode(repo: Datahub, svc: AlamedaService, namespace: string, r: H.Rpcs)
      returns (outcome: H.Outcome)
      modifies this`eventChanMap, repo
      ensures (StoreOf(repo, namespace), outcome)
           == H.HandleEmptyKeycode(old(StoreOf(repo, namespace)), old(svc.Value()), r)
      ensures OtherChannelsUnchanged(namespace)
    {
      if !svc.Value().IsCodeNumberUpdated() {
        return H.Finished;
      }
      var err, details := repo.ListKeycodes(r.listOk);
      if err {
        return H.Failed;
      }
      outcome := DeleteKeycodes(repo, namespace, details, r.okDeletes, H.DeletedCode);
    }

    method HandleKeycode(repo: Datahub, svc: AlamedaService, namespace: string, r: H.Rpcs, ghost persisted: bool)
      returns (outcome: H.Outcome)
      modifies this`eventChanMap, repo, svc
      ensures H.Handled(StoreOf(repo, namespace), svc.Value(), outcome)
           == H.HandleKeycode(old(StoreOf(repo, namespace)), old(svc.Value()), r, persisted)
      ensures OtherChannelsUnchanged(namespace)
    {
      var keycode := svc.spec.codeNumber;
      var err, details := repo.ListKeycodes(r.listOk);
      if err {
        return H.Failed;
      }
      if |details| == 0 {
        err := repo.SendKeycode(keycode, r.sendOk);
        if err {
          var full := AddEvent(namespace, Event(AddFailed, keycode));
          return if full then H.Blocked else H.Failed;
        }
        var full := AddEvent(namespace, Event(AddSucceeded, keycode));
        if full {
          return H.Blocked;
        }
        svc.status := svc.status.(codeNumber := svc.spec.codeNumber, state := PollingRegistrationData);
      } else if IsSpecial(keycode) {
        svc.spec := Spec(details[0], "");
        svc.status := Status(details[0], "", PollingRegistrationData, NoError, "");
        repo.log := repo.log + [Adopted(details[0], persisted)];
      } else {
        outcome := DeleteKeycodes(repo, namespace, details, r.okDeletes, H.NewCode(keycode));
        if outcome != H.Finished {
          return;
        }
        svc.spec := svc.spec.(signatureData := "");
        svc.status := Status("", "", WaitingKeycode, NoError, "");
        err := repo.SendKeycode(keycode, r.sendOk);
        if err {
          return H.Failed;
        }
        var full := AddEvent(namespace, Event(AddSucceeded, keycode));
        if full {
          return H.Blocked;
        }
        svc.status := svc.status.(codeNumber := svc.spec.codeNumber, state := PollingRegistrationData);
      }
      return H.Finished;
    }

    /** The body of Reconcile behind the retry gate: handlers and the state switch. */
    method Process(repo: Datahub, svc: AlamedaService, namespace: string, inputs: Inputs)
      returns (requeue: bool, blocked: bool)
      modifies this`eventChanMap, repo, svc
      ensures Handling(StoreOf(repo, namespace), svc.Value(), requeue, blocked)
           == Handle(old(StoreOf(repo, namespace)), old(svc.Value()), inputs)
      ensures OtherChannelsUnchanged(namespace)
    {
      var r := inputs.rpcs;
      if !inputs.repositoryOk {
        svc.status := svc.status.(lastErrorMessage := GetRepositoryFailed);
        return true, false;
      }
      if svc.Value().IsCodeNumberEmpty() {
        var outcome := HandleEmptyKeycode(repo, svc, namespace, r);
        if outcome == H.Blocked {
          return false, true;
        } else if outcome == H.Failed {
          svc.status := svc.status.(lastErrorMessage := HandleEmptyFailed);
          return true, false;
        }
        svc.spec := Spec("", "");
        svc.status := Status("", "", WaitingKeycode, NoError, "");
        return false, false;
      }
      if !svc.Value().IsCodeNumberUpdated() && svc.status.state == Done {
        return false, false;
      }
      if svc.Value().IsCodeNumberUpdated() || svc.status.state in {Default, WaitingKeycode} {
        var e := if svc.Value().IsCodeNumberUpdated() then UpdateKeycodeFailed else HandleKeycodeFailed;
        var outcome := HandleKeycode(repo, svc, namespace, r, inputs.writer.Lands());
        if outcome == H.Blocked {
          return false, true;
        } else if outcome == H.Failed {
          svc.status := svc.status.(lastErrorMessage := e);
        }
        return true, false;
      }
      if svc.status.state == PollingRegistrationData {
        requeue := PollRegistration(repo, svc, r);
        return requeue, false;
      } else if svc.status.state == WaitingSignatureData {
        requeue := HandleSignatureData(repo, svc, r);
        return requeue, false;
      }
      return false, false;
    }

    method PollRegistration(repo: Datahub, svc: AlamedaService, r: H.Rpcs) returns (requeue: bool)
      modifies repo`log, svc
      ensures var h := Poll(H.Store(repo.codes, [], old(repo.log)), old(svc.Value()), r);
              svc.Value() == h.service && repo.log == h.store.log && requeue == h.requeue
    {
      if r.registration == None || r.detail == None {
        svc.status := svc.status.(lastErrorMessage := PollFailed);
        return true;
      }
      if r.detail.value {
        repo.log := repo.log + [RegisteredReply(svc.spec.codeNumber)];
        svc.spec := svc.spec.(signatureData := r.registration.value);
        svc.status := Status(svc.spec.codeNumber, "", Done, NoError, "");
      } else {
        svc.status := Status(svc.spec.codeNumber, r.registration.value, WaitingSignatureData, NoError, "");
      }
      return false;
    }

    method HandleSignatureData(repo: Datahub, svc: AlamedaService, r: H.Rpcs) returns (requeue: bool)
      modifies repo`log, svc
      ensures var h := SendSignature(H.Store(repo.codes, [], old(repo.log)), old(svc.Value()), r);
              svc.Value() == h.service && repo.log == h.store.log && requeue == h.requeue
    {
      if svc.spec.signatureData == "" {
        return false;
      }
      if !r.signatureOk {
        svc.status := svc.status.(lastErrorMessage := HandleSignatureFailed);
        return true;
      }
      repo.log := repo.log + [SignatureAccepted(svc.spec.codeNumber, svc.spec.signatureData)];
      svc.status := svc.status.(lastErrorMessage := NoError, state := Done);
      return false;
    }

    /** The deferred status write; `requeue` is the caller's local, changed through a pointer. */
    method WriteStatus(api: ApiServer, svc: AlamedaService, wr: Writer, requeue: bool) returns (requeue': bool)
      modifies api
      ensures api.stored == Stored(old(api.stored), svc.Value(), wr)
      ensures requeue' == (requeue || wr.ForcesRequeue())
    {
      requeue' := requeue;
      if wr.get != Found {
        return;
      }
      var instance := api.stored.(spec := svc.spec, status := svc.status);
      if !wr.repositoryOk {
        requeue' := true;
      } else {
        if wr.summary == None {
          requeue' := true;
        }
        var summary := if wr.summary == None then EMPTY_SUMMARY else wr.summary.value;
        instance := instance.(status := instance.status.(summary := summary));
      }
      if !wr.updateOk {
        requeue' := true;
      } else {
        api.stored := instance;
      }
    }

    method HandleFirstRetryTime(key: NamespacedName, requeue: bool, now: int)
      modifies this`firstRetryTimeCache
      ensures FirstRetryTime(key)
           == if !requeue then None
              else if old(FirstRetryTime(key)) == None then Some(now) else old(FirstRetryTime(key))
      ensures forall k :: k != key ==> FirstRetryTime(k) == old(FirstRetryTime(k))
    {
      if requeue {
        if FirstRetryTime(key) == None {
          firstRetryTimeCache := firstRetryTimeCache[key := Some(now)];
        }
      } else {
        firstRetryTimeCache := firstRetryTimeCache[key := None];
      }
    }

    /** Drains the channel, one receive at a time, then reports what it held if need be. */
    method FlushEvents(namespace: string, svc: AlamedaService) returns (submitted: Option<seq<Event>>)
      modifies this`eventChanMap
      ensures submitted == if NeedToFlush(svc.Value(), LastReconcileTask(namespace))
                           then Some(old(EventChan(namespace))) else None
      ensures EventChan(namespace) == [] && OtherChannelsUnchanged(namespace)
    {
      var events: seq<Event> := [];
      if namespace !in eventChanMap {
        eventChanMap := eventChanMap[namespace := []];
      }
      while eventChanMap[namespace] != []
        invariant namespace in eventChanMap
        invariant events + eventChanMap[namespace] == old(EventChan(namespace))
        invariant OtherChannelsUnchanged(namespace)
        decreases |eventChanMap[namespace]|
      {
        events := events + [eventChanMap[namespace][0]];
        eventChanMap := eventChanMap[namespace := eventChanMap[namespace][1..]];
      }
      assert events + [] == events;
      submitted := if NeedToFlush(svc.Value(), LastReconcileTask(namespace)) then Some(events) else None;
    }

    method SetLastReconcileTask(namespace: string, svc: AlamedaService)
      modifies this`lastReconcileTaskMap
      ensures LastReconcileTask(namespace)
           == if svc.deleting then old(LastReconcileTask(namespace)) else TaskOf(svc.Value())
      ensures forall n :: n != namespace ==> LastReconcileTask(n) == old(LastReconcileTask(n))
    {
      if !svc.deleting {
        lastReconcileTaskMap := lastReconcileTaskMap[namespace := Task(svc.spec.codeNumber, svc.status.state)];
      }
    }

    /** The world one reconcile of `key` sees, with empty records of the past. */
    ghost function WorldOf(repo: Datahub, api: ApiServer, key: NamespacedName): World
      reads this, repo, api
    {
      World(repo.codes, api.stored, FirstRetryTime(key), EventChan(key.namespace),
            LastReconcileTask(key.namespace), [], [], [], false)
    }

    /** The deferred functions, last registered first: status write, retry timer, event
        flush, last task. `requeue` is the local flag they share. */
    method RunDeferred(api: ApiServer, svc: AlamedaService, key: NamespacedName, inputs: Inputs, requeue: bool)
      returns (submitted: Option<seq<Event>>)
      modifies this, api
      ensures api.stored == Stored(old(api.stored), svc.Value(), inputs.writer)
      ensures FirstRetryTime(key)
           == if !(requeue || inputs.writer.ForcesRequeue()) then None
              else if old(FirstRetryTime(key)) == None then Some(inputs.endTime) else old(FirstRetryTime(key))
      ensures submitted == if NeedToFlush(svc.Value(), old(LastReconcileTask(key.namespace)))
                           then Some(old(EventChan(key.namespace))) else None
      ensures EventChan(key.namespace) == []
      ensures LastReconcileTask(key.namespace)
           == if svc.deleting then old(LastReconcileTask(key.namespace)) else TaskOf(svc.Value())
      ensures forall k :: k != key ==> FirstRetryTime(k) == old(FirstRetryTime(k))
      ensures OtherChannelsUnchanged(key.namespace)
      ensures forall n :: n != key.namespace ==> LastReconcileTask(n) == old(LastReconcileTask(n))
    {
      var reconcileResult := WriteStatus(api, svc, inputs.writer, requeue);
      HandleFirstRetryTime(key, reconcileResult, inputs.endTime);
      submitted := FlushEvents(key.namespace, svc);
      SetLastReconcileTask(key.namespace, svc);
    }

    /** One reconcile does to the repository, the stored object and the caches of its key
        exactly what the function says, returns and reports what it says, and leaves the
        caches of every other key and namespace alone. */
    method Reconcile(repo: Datahub, api: ApiServer, key: NamespacedName, inputs: Inputs)
      returns (returned: bool, submitted: Option<seq<Event>>, blocked: bool)
      modifies this, repo, api
      ensures var r := KeycodeReconcile.Reconcile(old(WorldOf(repo, api, key)), inputs);
              && WorldOf(repo, api, key)
                 == r.world.(history := [], timeline := [], reported := [], stuck := false)
              && repo.log == r.world.history
              && returned == r.returned && submitted == r.submitted && blocked == r.blocked
      ensures forall k :: k != key ==> FirstRetryTime(k) == old(FirstRetryTime(k))
      ensures OtherChannelsUnchanged(key.namespace)
      ensures forall n :: n != key.namespace ==> LastReconcileTask(n) == old(LastReconcileTask(n))
    {
      repo.log := [];
      ghost var w := WorldOf(repo, api, key);
      ghost var s := H.Store(w.codes, w.buffer, []);
      if inputs.get != Found {
        return inputs.get == GetFailed, None, false;
      }
      if inputs.lock != Owned {
        return inputs.lock == LockFailed, None, false;
      }
      var svc := new AlamedaService(api.stored);
      var firstRetryTime := FirstRetryTime(key);
      var requeue := false;
      if firstRetryTime == None || inputs.now - firstRetryTime.value <= RETRY_LIMIT {
        requeue, blocked := Process(repo, svc, key.namespace, inputs);
        assert Handling(StoreOf(repo, key.namespace), svc.Value(), requeue, blocked) == Handle(s, w.service, inputs);
        if blocked {
          return false, None, true;
        }
      }
      // The unnamed result is copied here; the deferred functions only change the local.
      returned, blocked := requeue, false;
      submitted := RunDeferred(api, svc, key, inputs, requeue);
    }
  }
}
