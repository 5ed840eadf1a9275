# SecretBinding controller — a Dafny model

This project models the SecretBinding controller of the Gardener controller
manager. A SecretBinding is a namespaced object that points at a Secret holding
cloud credentials; Shoots (clusters) reference SecretBindings by name. The
controller keeps two finalizer tokens in place while a SecretBinding is live —
`GardenerName` on the binding and `ExternalGardenerName` on its Secret — and
takes them off again, Secret first, once the binding is being deleted and no
Shoot references it any more.

The model has three layers:

- `Keys` — the informer key functions the event handlers and the key driver
  use: the `namespace/name` key of an object, the variant that also accepts
  the tombstone of a deleted object, and the split of a key back into
  namespace and name, with its round trip.
- `Finalizers`, `Cluster`, `Reconciler` — the reconciliation as a pure
  function of the store (`Cluster.State`: SecretBindings and Secrets by
  identity), the SecretBinding handed to it and an `Oracle` holding what the
  unmodelled collaborators answer (the Shoot association lookup, and an
  injected fault for each store call). It returns the new store, the update
  requests in the order they were sent, the recorded events and the error.
  The properties the controller promises are stated about this function.
- `Controller` — the controller object: a class whose fields are the store,
  the log of update requests, the recorded events and the work queue. The
  event handlers and the key driver change the queue; `ReconcileSecretBinding`
  issues its store calls one after the other with early returns, and is proved
  to have exactly the effect of `Reconciler.Reconcile`.

Finalizer lists are sequences of strings. The controller treats them as sets
(it builds a string set, deletes its token and lists the set again, in an
unspecified order). The model fixes one listing order, and every property
stated about removal speaks of membership and the absence of duplicates only.

The Secret is protected per binding, not by a reference count: releasing one
of two bindings that share a Secret takes the external token off it
(`Reconciler.SharedSecretLosesProtection`). This is a tradeoff of the design,
and the model keeps it.

## Model

| member | source | states |
|---|---|---|
| `Controller.SecretBindingController.SecretBindingAdd` | pkg/controllermanager/controller/secretbinding/secretbinding_control.go:40-47 | the queue grows by exactly one immediate add of the object's key, or is unchanged when no key can be extracted |
| `Controller.SecretBindingController.SecretBindingUpdate` | pkg/controllermanager/controller/secretbinding/secretbinding_control.go:49-51 | the queue changes exactly as an add of the new object would change it; the old object plays no part |
| `Controller.SecretBindingController.SecretBindingDelete` | pkg/controllermanager/controller/secretbinding/secretbinding_control.go:53-60 | the queue grows by the deletion-tolerant key (a tombstone's stored key included), or is unchanged when there is none |
| `Keys.DeletionHandlingKey` | pkg/controllermanager/controller/secretbinding/secretbinding_control.go:54 | a tombstone yields exactly the key it carries; any other value gets the same key as on add; only a value without metadata has no key |
| `Keys.MetaNamespaceKey` | pkg/controllermanager/controller/secretbinding/secretbinding_control.go:41 | exactly the objects with metadata have a key, a tombstone has none on the add path, and the key of an object with valid namespace and name splits back into that object's identity, so the key driver looks up the very binding the handler saw |
| `Keys.Split` | pkg/controllermanager/controller/secretbinding/secretbinding_control.go:63 | at least one part, no part contains the separator, and the parts joined with the separator give back the input |
| `Keys.SplitMetaNamespaceKey` | pkg/controllermanager/controller/secretbinding/secretbinding_control.go:63-66 | a key without separator is accepted as a bare name in the empty namespace; an accepted key with a separator is exactly `namespace/name`; neither part contains a separator; a rejected key is an unexpected-format error (with `Keys.SplitOneSeparator`: a key is accepted iff it has at most one separator) |
| `Keys.KeyRoundTrip` | pkg/controllermanager/controller/secretbinding/secretbinding_control.go:62-68 | the key computed for an object with valid namespace and name splits back into that same identity |
| `Keys.SplitOneSeparator` | pkg/controllermanager/controller/secretbinding/secretbinding_control.go:63-66 | every key made of two separator-free parts around one separator is accepted as that namespace and name, the empty namespace (`/name`) included |
| `Controller.SecretBindingController.ReconcileSecretBindingKey` | pkg/controllermanager/controller/secretbinding/secretbinding_control.go:62-82 | a malformed key or a lister failure is returned with nothing changed; a binding that is not found yields success with no reconciliation and no queue change; otherwise the store, log and events change as `Reconcile` says, the result is success, and a failed reconciliation adds the key back after 60 seconds |
| `Controller.SecretBindingController.ReconcileSecretBinding` | pkg/controllermanager/controller/secretbinding/secretbinding_control.go:109-190 | the new store, the update requests sent, the recorded events and the error are exactly those of `Reconciler.Reconcile` on the old store |
| `Reconciler.Classify` | pkg/controllermanager/controller/secretbinding/secretbinding_control.go:124-135 | the five phases partition the inputs: active iff no deletion marker; released iff marked and our token absent; undetermined, blocked or ready by the association lookup's failure, non-empty or empty answer |
| `Reconciler.Reconcile` | pkg/controllermanager/controller/secretbinding/secretbinding_control.go:109-169 | terminating without our token: success and nothing written; lookup failure: that error, store untouched, no write; Shoots still referencing: store untouched, no write, one event naming them and the still-referenced error; on deletion every Secret update precedes every binding update; every object other than the binding and its Secret is unchanged and none appears; the stored binding and Secret keep every field and every finalizer other than the controller's token; objects stay filed under their own identity |
| `Reconciler.ReleaseFinalizers` | pkg/controllermanager/controller/secretbinding/secretbinding_control.go:135-162 | the requests are given exactly: when the Secret get succeeds its update (the read Secret minus our token) is sent, followed by the binding update (the binding minus our token) unless the Secret update failed other than with NotFound; a missing Secret gives the binding update alone; a failed Secret get sends nothing and changes nothing; success iff no call failed other than with NotFound; the new store is given exactly: the binding and its Secret replaced by their versions without our token, or removed when their update answered NotFound, every other object kept; on success neither token is left |
| `Reconciler.EnsureFinalizers` | pkg/controllermanager/controller/secretbinding/secretbinding_control.go:171-189 | the binding's finalizer is ensured before anything touches the Secret; with no fault on the binding and on the get, the requests are exactly the binding update adding our token if it was missing, then the Secret update adding the external token if it was missing; when the Secret get fails (NotFound or a fault), only the binding update, if the token was missing; a failed ensure on the binding writes nothing; a failed Secret get, NotFound included, is returned and the Secret is untouched; success iff no call failed and the Secret exists; the new bindings and Secrets are the old ones with the token added to the binding and to its Secret; every other object kept |
| `Reconciler.ProtectSecret` | pkg/controllermanager/controller/secretbinding/secretbinding_control.go:178-187 | a failed Secret get, NotFound included, is returned with nothing sent or changed; otherwise exactly one request adding the external token when it was missing and no fault was injected, none otherwise; success iff the get and the ensure succeed, and then the Secret is stored with the token added; no other Secret changes and no binding changes |
| `Reconciler.ReconcileIdempotent` | pkg/controllermanager/controller/secretbinding/secretbinding_control.go:109-190 | after a successful reconciliation, reconciling the stored binding again sends no update request, whatever the collaborators answer |
| `Reconciler.ReleaseCompletes` | pkg/controllermanager/controller/secretbinding/secretbinding_control.go:135-161 | an unreferenced deletion with no failing call succeeds in one reconciliation, sending the Secret update and then the binding update (the binding update alone when the Secret is missing), leaves neither token, and the next reconciliation is a no-op |
| `Reconciler.ProtectSendsBothUpdates` | pkg/controllermanager/controller/secretbinding/secretbinding_control.go:171-189 | a live binding without either token whose Secret exists, with no failing call: success after exactly two requests, the binding update adding our token and then the Secret update adding the external token, and both tokens are in place |
| `Reconciler.DanglingSecretRefReported` | pkg/controllermanager/controller/secretbinding/secretbinding_control.go:171-185 | a live binding whose Secret does not exist: exactly one request, the binding update adding our token, then the NotFound error is returned and the Secrets are untouched |
| `Reconciler.NotFoundOnUpdatesTolerated` | pkg/controllermanager/controller/secretbinding/secretbinding_control.go:138-161 | when both releasing updates answer NotFound the reconciliation still succeeds, sends the Secret update then the binding update, and both objects are gone from the store |
| `Reconciler.TokensKeptUnlessUnreferenced` | pkg/controllermanager/controller/secretbinding/secretbinding_control.go:124-189 | unless the association lookup answered with an empty list, no token of the controller disappears from any stored binding or Secret |
| `Reconciler.SharedSecretLosesProtection` | pkg/controllermanager/controller/secretbinding/secretbinding_control.go:138-151 | with two bindings sharing a Secret, releasing one takes the external token off the Secret while the other is live |
| `Finalizers.RemoveFinalizer` | pkg/controllermanager/controller/secretbinding/secretbinding_control.go:141-143 | the result holds exactly the input's finalizers other than the token, each once |
| `Finalizers.AddFinalizer` | pkg/controllermanager/controller/secretbinding/secretbinding_control.go:171 | the result holds the input's finalizers plus the token; unchanged when the token was already there |
| `Cluster.ApplySecretUpdate` | pkg/controllermanager/controller/secretbinding/secretbinding_control.go:144 | exactly one update request carrying the object; success iff no error was injected and the Secret is stored, and then the Secret is replaced and nothing else changes; a NotFound answer removes the Secret; an injected fault leaves the store as it was |
| `Cluster.ApplyBindingUpdate` | pkg/controllermanager/controller/secretbinding/secretbinding_control.go:157 | exactly one update request carrying the object; success iff no error was injected and the binding is stored, and then the binding is replaced and nothing else changes; a NotFound answer removes the binding; an injected fault leaves the store as it was |
| `Cluster.EnsureBindingFinalizer` | pkg/controllermanager/controller/secretbinding/secretbinding_control.go:171-174 | a failure changes and writes nothing; if the object handed over already carries the token, success without a request; otherwise success iff the binding is stored, and then one update whose new store is the old one with that object plus the token, every other binding kept |
| `Cluster.EnsureSecretFinalizer` | pkg/controllermanager/controller/secretbinding/secretbinding_control.go:184-187 | a failure changes and writes nothing; if the object handed over already carries the token, success without a request; otherwise success iff the Secret is stored, and then one update whose new store is the old one with that object plus the token, every other Secret kept |

## Left out

- `controllerutils.DetermineShootAssociations` is not part of this model: its answer (the referencing Shoots, or a listing failure) is an input of each reconciliation.
- `controllerutils.EnsureFinalizer` is not part of this model beyond its outcome: a failure changes and writes nothing, a token already present needs no request, otherwise one update adds it. Its internal re-reads and retries are not modelled.
- The listers and the clients are modelled by one store with read-after-write consistency; informer cache staleness is not modelled. A get answers NotFound only for a missing object; an update may also be answered NotFound, standing for an object deleted since it was read, which then leaves the store. Conflicts and backend errors are injected per call. The event recorder is a separate append-only list of events, not part of the store.
- The Secret returned by the lister is modified in place (source lines 141-143) before its update is sent (line 144), so after a failed update the shared informer cache holds a Secret without `ExternalGardenerName` that the server still has. The model reads and writes values and has a single store, so it does not capture this aliasing of the cache.
- `Reconciler.ReleaseCompletes`: the store never physically deletes an object whose deletion was requested once its last finalizer is gone (that is the API server's garbage collection, not modelled), so the released binding stays in the modelled store where a real cluster may already have removed it.
- The work queue is the list of `Add` and `AddAfter` calls made on it; its de-duplication, rate limiting and the worker pool are not modelled. `AddAfter(key, time.Minute)` is an entry tagged with 60 seconds, not a clock.
- `MetaNamespaceKey` leaves out client-go's explicit-key case (a bare key passed as the object); the handlers never receive one.
- The key check at the start of `ReconcileSecretBinding` (source lines 110-113) is left out: a typed SecretBinding always has metadata, so it cannot fail. The unused `key` parameter and the deep copy of the binding (Dafny values are never shared) are left out too.
- Logging and the text of the event message are left out; the recorded event keeps the object, the event type, the reason and the Shoot names.
- The values of `GardenerName`, `ExternalGardenerName` and the event reason are defined outside the modelled file; the model uses the API's values, and only their distinctness matters to the proofs.
- `Finalizers.RemoveFinalizer`: the order of the listed set is unspecified in the source; the model fixes one order, and its contract states only membership and the absence of duplicates.
