/**
 * The slice of the cluster-state store the controller touches: SecretBindings
 * and Secrets by identity, the lookups of the listers, the update calls of the
 * client, and the finalizer-ensuring helper. Failures of these calls that do
 * not follow from the store's contents (a stale resource version, a backend
 * error) are injected through an Oracle.
 */
module Cluster {
  import opened Wrappers
  import opened Keys
  import opened Finalizers

  /** A SecretBinding: its identity, its deletion marker, its finalizers and the Secret it references. */
  datatype SecretBinding = SecretBinding(
    meta: ObjectMeta,
    deletionRequested: bool,
    finalizers: seq<string>,
    secretRef: ObjectMeta)

  datatype Secret = Secret(meta: ObjectMeta, finalizers: seq<string>)

  /** A failure of a call that the store's contents do not explain. */
  datatype Fault = Conflict | Unavailable

  datatype ApiError = NotFound | Failed(fault: Fault)

  /** One update request sent to the store, carrying the object written. */
  datatype Write = SecretUpdate(secret: Secret) | BindingUpdate(binding: SecretBinding)

  datatype State = State(bindings: map<ObjectMeta, SecretBinding>, secrets: map<ObjectMeta, Secret>)

  /**
   * What the collaborators whose code is not modelled answer during one
   * reconciliation: the Shoot association lookup (names, or the listing
   * failure) and an injected fault, if any, for each store call. An update
   * may also be answered NotFound: the object was deleted by someone else
   * between the read and the write.
   */
  datatype Oracle = Oracle(
    associations: Result<seq<string>, Fault>,
    secretGet: Option<Fault>,
    secretUpdate: Option<ApiError>,
    bindingUpdate: Option<ApiError>,
    ensureBinding: Option<Fault>,
    ensureSecret: Option<Fault>)

  /** The outcome of a store call: the new store, the update requests it sent, and its error. */
  datatype Step = Step(state: State, writes: seq<Write>, err: Option<ApiError>)

  /** Every object is filed under its own identity. */
  predicate WellKeyed(s: State) {
    && (forall k :: k in s.bindings ==> s.bindings[k].meta == k)
    && (forall k :: k in s.secrets ==> s.secrets[k].meta == k)
  }

  /** `m2` differs from `m` at most at key `k`, and has no key `m` lacks. */
  predicate SameExcept<K, V(==)>(m: map<K, V>, m2: map<K, V>, k: K) {
    && m2.Keys <= m.Keys
    && forall j :: j in m && j != k ==> j in m2 && m2[j] == m[j]
  }

  /** `client.IgnoreNotFound`: a NotFound error counts as success. */
  function IgnoreNotFound(err: Option<ApiError>): (r: Option<ApiError>)
    ensures r.Some? <==> err.Some? && err.value.Failed?
    ensures r.Some? ==> r == err
  {
    if err == Some(NotFound) then None else err
  }

  /** A lister Get: the injected fault, else the object, else NotFound. */
  function LookupBinding(s: State, key: ObjectMeta, fault: Option<Fault>): (r: Result<SecretBinding, ApiError>)
    ensures r.Ok? <==> fault.None? && key in s.bindings
    ensures r.Ok? ==> r.value == s.bindings[key]
    ensures r.Err? && fault.None? ==> r.error == NotFound
  {
    if fault.Some? then Err(Failed(fault.value))
    else if key in s.bindings then Ok(s.bindings[key])
    else Err(NotFound)
  }

  function LookupSecret(s: State, key: ObjectMeta, fault: Option<Fault>): (r: Result<Secret, ApiError>)
    ensures r.Ok? <==> fault.None? && key in s.secrets
    ensures r.Ok? ==> r.value == s.secrets[key]
    ensures r.Err? && fault.None? ==> r.error == NotFound
  {
    if fault.Some? then Err(Failed(fault.value))
    else if key in s.secrets then Ok(s.secrets[key])
    else Err(NotFound)
  }

  /**
   * An update call on a Secret: one request is sent. Unless the store answers
   * otherwise it replaces the stored object; a NotFound answer means the
   * object is gone from the store, and a fault leaves the store as it was.
   */
  function ApplySecretUpdate(s: State, obj: Secret, answer: Option<ApiError>): (r: Step)
    ensures r.writes == [SecretUpdate(obj)]
    ensures r.state.bindings == s.bindings
    ensures answer.Some? ==> r.err == answer
    ensures answer.None? ==> (r.err.None? <==> obj.meta in s.secrets) && (r.err.Some? ==> r.err == Some(NotFound))
    ensures r.err.None? ==> r.state.secrets == s.secrets[obj.meta := obj]
    ensures r.err == Some(NotFound) ==> r.state.secrets == s.secrets - {obj.meta}
    ensures r.err.Some? && r.err.value.Failed? ==> r.state == s
    ensures SameExcept(s.secrets, r.state.secrets, obj.meta)
  {
    if answer == Some(NotFound) || (answer.None? && obj.meta !in s.secrets) then
      Step(s.(secrets := s.secrets - {obj.meta}), [SecretUpdate(obj)], Some(NotFound))
    else if answer.Some? then Step(s, [SecretUpdate(obj)], answer)
    else Step(s.(secrets := s.secrets[obj.meta := obj]), [SecretUpdate(obj)], None)
  }

  function ApplyBindingUpdate(s: State, obj: SecretBinding, answer: Option<ApiError>): (r: Step)
    ensures r.writes == [BindingUpdate(obj)]
    ensures r.state.secrets == s.secrets
    ensures answer.Some? ==> r.err == answer
    ensures answer.None? ==> (r.err.None? <==> obj.meta in s.bindings) && (r.err.Some? ==> r.err == Some(NotFound))
    ensures r.err.None? ==> r.state.bindings == s.bindings[obj.meta := obj]
    ensures r.err == Some(NotFound) ==> r.state.bindings == s.bindings - {obj.meta}
    ensures r.err.Some? && r.err.value.Failed? ==> r.state == s
    ensures SameExcept(s.bindings, r.state.bindings, obj.meta)
  {
    if answer == Some(NotFound) || (answer.None? && obj.meta !in s.bindings) then
      Step(s.(bindings := s.bindings - {obj.meta}), [BindingUpdate(obj)], Some(NotFound))
    else if answer.Some? then Step(s, [BindingUpdate(obj)], answer)
    else Step(s.(bindings := s.bindings[obj.meta := obj]), [BindingUpdate(obj)], None)
  }

  /**
   * Ensuring a finalizer on a SecretBinding. When the object handed over
   * already carries the token the call succeeds without a request; otherwise
   * one update stores that object with the token added. Nothing is written
   * when the call fails. The helper's own retries are not
   * visible, so a failed call is modelled as sending no request.
   */
  function EnsureBindingFinalizer(s: State, obj: SecretBinding, token: string, fault: Option<Fault>): (r: Step)
    ensures r.state.secrets == s.secrets
    ensures r.err.Some? ==> r.state == s && r.writes == []
    ensures r.err.None? <==> fault.None? && (token in obj.finalizers || obj.meta in s.bindings)
    ensures r.err.None? && token !in obj.finalizers ==>
      && obj.meta in r.state.bindings
      && r.state.bindings[obj.meta] == obj.(finalizers := AddFinalizer(obj.finalizers, token))
      && token in r.state.bindings[obj.meta].finalizers
    ensures r.writes == [] ==> r.state == s
    ensures r.writes != [] ==> r.err.None? && obj.meta in r.state.bindings && r.writes == [BindingUpdate(r.state.bindings[obj.meta])]
    ensures r.writes != [] ==> r.state.bindings == s.bindings[obj.meta := obj.(finalizers := AddFinalizer(obj.finalizers, token))]
    ensures fault.None? && token in obj.finalizers ==> r == Step(s, [], None)
    ensures fault.None? && token !in obj.finalizers && obj.meta in s.bindings ==>
      r.writes == [BindingUpdate(obj.(finalizers := AddFinalizer(obj.finalizers, token)))]
    ensures SameExcept(s.bindings, r.state.bindings, obj.meta)
  {
    if fault.Some? then Step(s, [], Some(Failed(fault.value)))
    else if token in obj.finalizers then Step(s, [], None)
    else if obj.meta !in s.bindings then Step(s, [], Some(NotFound))
    else ApplyBindingUpdate(s, obj.(finalizers := AddFinalizer(obj.finalizers, token)), None)
  }

  function EnsureSecretFinalizer(s: State, obj: Secret, token: string, fault: Option<Fault>): (r: Step)
    ensures r.state.bindings == s.bindings
    ensures r.err.Some? ==> r.state == s && r.writes == []
    ensures r.err.None? <==> fault.None? && (token in obj.finalizers || obj.meta in s.secrets)
    ensures r.err.None? && token !in obj.finalizers ==>
      && obj.meta in r.state.secrets
      && r.state.secrets[obj.meta] == obj.(finalizers := AddFinalizer(obj.finalizers, token))
      && token in r.state.secrets[obj.meta].finalizers
    ensures r.writes == [] ==> r.state == s
    ensures r.writes != [] ==> r.err.None? && obj.meta in r.state.secrets && r.writes == [SecretUpdate(r.state.secrets[obj.meta])]
    ensures r.writes != [] ==> r.state.secrets == s.secrets[obj.meta := obj.(finalizers := AddFinalizer(obj.finalizers, token))]
    ensures fault.None? && token in obj.finalizers ==> r == Step(s, [], None)
    ensures fault.None? && token !in obj.finalizers && obj.meta in s.secrets ==>
      r.writes == [SecretUpdate(obj.(finalizers := AddFinalizer(obj.finalizers, token)))]
    ensures SameExcept(s.secrets, r.state.secrets, obj.meta)
  {
    if fault.Some? then Step(s, [], Some(Failed(fault.value)))
    else if token in obj.finalizers then Step(s, [], None)
    else if obj.meta !in s.secrets then Step(s, [], Some(NotFound))
    else ApplySecretUpdate(s, obj.(finalizers := AddFinalizer(obj.finalizers, token)), None)
  }
}
