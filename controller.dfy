/**
 * The SecretBinding controller as an object: the event handlers that feed
 * its work queue, the key-level driver that looks a binding up and re-queues
 * it after a failed reconciliation, and the reconciliation itself, which
 * issues its store calls one after the other with early returns. The store,
 * the update-request log and the recorded events are fields of the same
 * object, so that every method states the whole new state.
 */
module Controller {
  import opened Wrappers
  import opened Keys
  import opened Finalizers
  import opened Cluster
  import opened Reconciler

  /** Delay, in seconds, before a key whose reconciliation failed is offered again. */
  const RetryDelaySeconds: nat := 60

  /** A queue operation: an immediate add, or an add after a delay. */
  datatype QueueEntry = Added(key: string) | AddedAfter(key: string, delaySeconds: nat)

  datatype KeyDriverError = InvalidKey(error: KeyError) | ListerFailed(fault: Fault)

  /** What an event handler adds to the queue for the key it extracted: that key, or nothing. */
  function Enqueued(key: Result<string, KeyError>): (q: seq<QueueEntry>)
    ensures key.Ok? ==> q == [Added(key.value)]
    ensures key.Err? ==> q == []
  {
    if key.Ok? then [Added(key.value)] else []
  }

  class SecretBindingController {
    var bindings: map<ObjectMeta, SecretBinding>
    var secrets: map<ObjectMeta, Secret>
    /** Every update request sent to the store, in order. */
    var writes: seq<Write>
    var events: seq<RecordedEvent>
    var queue: seq<QueueEntry>

    function Store(): State
      reads this
    {
      State(bindings, secrets)
    }

    ghost predicate Valid()
      reads this
    {
      WellKeyed(Store())
    }

    constructor (initial: State)
      requires WellKeyed(initial)
      ensures Valid() && Store() == initial
      ensures writes == [] && events == [] && queue == []
    {
      bindings, secrets := initial.bindings, initial.secrets;
      writes, events, queue := [], [], [];
    }

    /** Add notification: enqueue the object's key, or drop the event when it has none. */
    method SecretBindingAdd(obj: Payload)
      modifies this`queue
      ensures queue == old(queue) + Enqueued(MetaNamespaceKey(obj))
    {
      var key := MetaNamespaceKey(obj);
      if key.Err? {
        return;
      }
      queue := queue + [Added(key.value)];
    }

    /** Update notification: exactly an add of the new object; the old one is ignored. */
    method SecretBindingUpdate(oldObj: Payload, newObj: Payload)
      modifies this`queue
      ensures queue == old(queue) + Enqueued(MetaNamespaceKey(newObj))
    {
      SecretBindingAdd(newObj);
    }

    /** Delete notification: like an add, except that a tombstone yields the key it carries. */
    method SecretBindingDelete(obj: Payload)
      modifies this`queue
      ensures queue == old(queue) + Enqueued(DeletionHandlingKey(obj))
    {
      var key := DeletionHandlingKey(obj);
      if key.Err? {
        return;
      }
      queue := queue + [Added(key.value)];
    }

    /**
     * Processing one key from the queue. A malformed key and a lister failure
     * are returned; a binding that no longer exists ends the work; otherwise
     * the binding is reconciled, and a failed reconciliation puts the key back
     * after the retry delay instead of being returned.
     */
    method ReconcileSecretBindingKey(key: string, bindingGet: Option<Fault>, o: Oracle)
      returns (err: Option<KeyDriverError>)
      requires Valid()
      modifies this`bindings, this`secrets, this`writes, this`events, this`queue
      ensures Valid()
      ensures SplitMetaNamespaceKey(key).Err? ==>
        && err == Some(InvalidKey(SplitMetaNamespaceKey(key).error))
        && Store() == old(Store()) && writes == old(writes) && events == old(events) && queue == old(queue)
      ensures SplitMetaNamespaceKey(key).Ok? && bindingGet.Some? ==>
        && err == Some(ListerFailed(bindingGet.value))
        && Store() == old(Store()) && writes == old(writes) && events == old(events) && queue == old(queue)
      ensures SplitMetaNamespaceKey(key).Ok? && bindingGet.None? && SplitMetaNamespaceKey(key).value !in old(bindings) ==>
        && err == None
        && Store() == old(Store()) && writes == old(writes) && events == old(events) && queue == old(queue)
      ensures SplitMetaNamespaceKey(key).Ok? && bindingGet.None? && SplitMetaNamespaceKey(key).value in old(bindings) ==>
        var out := Reconcile(old(Store()), old(bindings)[SplitMetaNamespaceKey(key).value], o);
        && err == None
        && Store() == out.state && writes == old(writes) + out.writes && events == old(events) + out.events
        && queue == old(queue) + (if out.err.Some? then [AddedAfter(key, RetryDelaySeconds)] else [])
    {
      var split := SplitMetaNamespaceKey(key);
      if split.Err? {
        return Some(InvalidKey(split.error));
      }
      var got := GetBinding(split.value, bindingGet);
      if got.Err? && got.error == NotFound {
        return None;
      }
      if got.Err? {
        return Some(ListerFailed(got.error.fault));
      }
      var failure := ReconcileSecretBinding(got.value, o);
      if failure.Some? {
        queue := queue + [AddedAfter(key, RetryDelaySeconds)];
      }
      return None;
    }

    /**
     * The reconciliation of one SecretBinding, call by call: its effect on the
     * store, the requests it sends, the events it records and the error it
     * returns are those of Reconciler.Reconcile.
     */
    method ReconcileSecretBinding(b: SecretBinding, o: Oracle) returns (err: Option<ReconcileError>)
      modifies this`bindings, this`secrets, this`writes, this`events
      ensures var out := Reconcile(old(Store()), b, o);
        && Store() == out.state
        && writes == old(writes) + out.writes
        && events == old(events) + out.events
        && err == out.err
    {
      if b.deletionRequested {
        if GardenerName !in b.finalizers {
          return None;
        }
        var associations := o.associations;
        if associations.Err? {
          return Some(AssociationsFailed(associations.error));
        }
        if |associations.value| == 0 {
          var secret := GetSecret(b.secretRef, o.secretGet);
          if secret.Ok? {
            var updateErr := UpdateSecret(WithoutExternalFinalizer(secret.value), o.secretUpdate);
            if IgnoreNotFound(updateErr).Some? {
              return Some(ApiFailure(updateErr.value));
            }
          } else if secret.error != NotFound {
            return Some(ApiFailure(secret.error));
          }
          var updateErr := UpdateBinding(WithoutGardenerFinalizer(b), o.bindingUpdate);
          if IgnoreNotFound(updateErr).Some? {
            return Some(ApiFailure(updateErr.value));
          }
          return None;
        }
        RecordEvent(ReferencedEvent(b, associations.value));
        return Some(StillReferenced);
      }

      var ensureErr := EnsureFinalizerOnBinding(b, GardenerName, o.ensureBinding);
      if ensureErr.Some? {
        return Some(ApiFailure(ensureErr.value));
      }
      var secret := GetSecret(b.secretRef, o.secretGet);
      if secret.Err? {
        return Some(ApiFailure(secret.error));
      }
      ensureErr := EnsureFinalizerOnSecret(secret.value, ExternalGardenerName, o.ensureSecret);
      if ensureErr.Some? {
        return Some(ApiFailure(ensureErr.value));
      }
      return None;
    }

    /** The SecretBinding lister. */
    method GetBinding(key: ObjectMeta, fault: Option<Fault>) returns (r: Result<SecretBinding, ApiError>)
      ensures r == LookupBinding(Store(), key, fault)
    {
      if fault.Some? {
        return Err(Failed(fault.value));
      }
      if key !in bindings {
        return Err(NotFound);
      }
      return Ok(bindings[key]);
    }

    /** The Secret lister. */
    method GetSecret(key: ObjectMeta, fault: Option<Fault>) returns (r: Result<Secret, ApiError>)
      ensures r == LookupSecret(Store(), key, fault)
    {
      if fault.Some? {
        return Err(Failed(fault.value));
      }
      if key !in secrets {
        return Err(NotFound);
      }
      return Ok(secrets[key]);
    }

    method UpdateSecret(obj: Secret, answer: Option<ApiError>) returns (err: Option<ApiError>)
      modifies this`secrets, this`writes
      ensures var step := ApplySecretUpdate(old(Store()), obj, answer);
        Store() == step.state && writes == old(writes) + step.writes && err == step.err
    {
      writes := writes + [SecretUpdate(obj)];
      if answer == Some(NotFound) || (answer.None? && obj.meta !in secrets) {
        secrets := secrets - {obj.meta};
        return Some(NotFound);
      }
      if answer.Some? {
        return answer;
      }
      secrets := secrets[obj.meta := obj];
      return None;
    }

    method UpdateBinding(obj: SecretBinding, answer: Option<ApiError>) returns (err: Option<ApiError>)
      modifies this`bindings, this`writes
      ensures var step := ApplyBindingUpdate(old(Store()), obj, answer);
        Store() == step.state && writes == old(writes) + step.writes && err == step.err
    {
      writes := writes + [BindingUpdate(obj)];
      if answer == Some(NotFound) || (answer.None? && obj.meta !in bindings) {
        bindings := bindings - {obj.meta};
        return Some(NotFound);
      }
      if answer.Some? {
        return answer;
      }
      bindings := bindings[obj.meta := obj];
      return None;
    }

    method EnsureFinalizerOnBinding(obj: SecretBinding, token: string, fault: Option<Fault>) returns (err: Option<ApiError>)
      modifies this`bindings, this`writes
      ensures var step := EnsureBindingFinalizer(old(Store()), obj, token, fault);
        Store() == step.state && writes == old(writes) + step.writes && err == step.err
    {
      if fault.Some? {
        return Some(Failed(fault.value));
      }
      if token in obj.finalizers {
        return None;
      }
      if obj.meta !in bindings {
        return Some(NotFound);
      }
      err := UpdateBinding(obj.(finalizers := AddFinalizer(obj.finalizers, token)), None);
    }

    method EnsureFinalizerOnSecret(obj: Secret, token: string, fault: Option<Fault>) returns (err: Option<ApiError>)
      modifies this`secrets, this`writes
      ensures var step := EnsureSecretFinalizer(old(Store()), obj, token, fault);
        Store() == step.state && writes == old(writes) + step.writes && err == step.err
    {
      if fault.Some? {
        return Some(Failed(fault.value));
      }
      if token in obj.finalizers {
        return None;
      }
      if obj.meta !in secrets {
        return Some(NotFound);
      }
      err := UpdateSecret(obj.(finalizers := AddFinalizer(obj.finalizers, token)), None);
    }

    /** The event recorder: fire and forget. */
    method RecordEvent(e: RecordedEvent)
      modifies this`events
      ensures events == old(events) + [e]
    {
      events := events + [e];
    }
  }
}
