/**
 * The reconciliation of one SecretBinding as a function of the store, the
 * object handed to it and the answers of the collaborators: the finalizer
 * add/remove state machine, with the properties the controller promises.
 */
module Reconciler {
  import opened Wrappers
  import opened Keys
  import opened Finalizers
  import opened Cluster

  /** Where a SecretBinding stands, seen from the controller. */
  datatype Phase =
    | Active                         // no deletion marker
    | Released                       // deletion requested, the controller's finalizer already gone
    | Undetermined(fault: Fault)     // deletion requested, the Shoot lookup failed
    | Blocked(shoots: seq<string>)   // deletion requested, Shoots still reference it
    | Ready                          // deletion requested, nothing references it

  datatype EventType = Normal | Warning

  /** Reason attached to the event recorded for a blocked deletion. */
  const ResourceReferenced: string := "ResourceReferenced"

  datatype RecordedEvent = RecordedEvent(object: ObjectMeta, eventType: EventType, reason: string, shoots: seq<string>)

  datatype ReconcileError =
    | ApiFailure(error: ApiError)
    | AssociationsFailed(fault: Fault)
    | StillReferenced                // "SecretBinding still has references"

  /** What one reconciliation does: the new store, the update requests in the order sent, the events, the error. */
  datatype Outcome = Outcome(state: State, writes: seq<Write>, events: seq<RecordedEvent>, err: Option<ReconcileError>)

  /** No update of a SecretBinding is sent before an update of a Secret. */
  predicate SecretWritesFirst(ws: seq<Write>) {
    forall i, j :: 0 <= i < j < |ws| ==> !(ws[i].BindingUpdate? && ws[j].SecretUpdate?)
  }

  /** No update of a Secret is sent before an update of a SecretBinding. */
  predicate BindingWritesFirst(ws: seq<Write>) {
    forall i, j :: 0 <= i < j < |ws| ==> !(ws[i].SecretUpdate? && ws[j].BindingUpdate?)
  }

  predicate UpdatesBinding(ws: seq<Write>) {
    exists i :: 0 <= i < |ws| && ws[i].BindingUpdate?
  }

  predicate UpdatesSecret(ws: seq<Write>) {
    exists i :: 0 <= i < |ws| && ws[i].SecretUpdate?
  }

  /** Both of the controller's tokens are on the binding and on the Secret it references. */
  predicate Protected(s: State, b: SecretBinding) {
    && b.meta in s.bindings && GardenerName in s.bindings[b.meta].finalizers
    && b.secretRef in s.secrets && ExternalGardenerName in s.secrets[b.secretRef].finalizers
  }

  /** Neither of the controller's tokens is left on the binding or on the Secret it references. */
  predicate Unprotected(s: State, b: SecretBinding) {
    && (b.meta in s.bindings ==> GardenerName !in s.bindings[b.meta].finalizers)
    && (b.secretRef in s.secrets ==> ExternalGardenerName !in s.secrets[b.secretRef].finalizers)
  }

  /** Apart from the binding and its Secret, every stored object is as it was, and nothing new appears. */
  predicate OthersUnchanged(s: State, t: State, b: SecretBinding) {
    SameExcept(s.bindings, t.bindings, b.meta) && SameExcept(s.secrets, t.secrets, b.secretRef)
  }

  /** `y` is `x` with at most `token` added or taken away: every other field and every other finalizer is kept. */
  ghost predicate BindingUpToToken(x: SecretBinding, y: SecretBinding, token: string) {
    && y == x.(finalizers := y.finalizers)
    && (forall f :: f != token ==> (f in y.finalizers <==> f in x.finalizers))
  }

  ghost predicate SecretUpToToken(x: Secret, y: Secret, token: string) {
    && y == x.(finalizers := y.finalizers)
    && (forall f :: f != token ==> (f in y.finalizers <==> f in x.finalizers))
  }

  /** The binding as the controller writes it back once it lets go of it. */
  function WithoutGardenerFinalizer(b: SecretBinding): (r: SecretBinding)
    ensures BindingUpToToken(b, r, GardenerName)
    ensures GardenerName !in r.finalizers
  {
    b.(finalizers := RemoveFinalizer(b.finalizers, GardenerName))
  }

  /** The binding as the controller writes it while it is live: our token added. */
  function WithGardenerFinalizer(b: SecretBinding): (r: SecretBinding)
    ensures BindingUpToToken(b, r, GardenerName)
    ensures GardenerName in r.finalizers
  {
    b.(finalizers := AddFinalizer(b.finalizers, GardenerName))
  }

  function WithFinalizer(x: Secret, token: string): (r: Secret)
    ensures SecretUpToToken(x, r, token)
    ensures token in r.finalizers
  {
    x.(finalizers := AddFinalizer(x.finalizers, token))
  }

  function WithoutExternalFinalizer(x: Secret): (r: Secret)
    ensures SecretUpToToken(x, r, ExternalGardenerName)
    ensures ExternalGardenerName !in r.finalizers
  {
    x.(finalizers := RemoveFinalizer(x.finalizers, ExternalGardenerName))
  }

  function ReferencedEvent(b: SecretBinding, shoots: seq<string>): RecordedEvent {
    RecordedEvent(b.meta, Normal, ResourceReferenced, shoots)
  }

  /** The state classification the reconciliation branches on. */
  function Classify(b: SecretBinding, associations: Result<seq<string>, Fault>): (p: Phase)
    ensures p.Active? <==> !b.deletionRequested
    ensures p.Released? <==> b.deletionRequested && GardenerName !in b.finalizers
    ensures p.Undetermined? <==> b.deletionRequested && GardenerName in b.finalizers && associations.Err?
    ensures p.Blocked? <==> b.deletionRequested && GardenerName in b.finalizers && associations.Ok? && associations.value != []
    ensures p.Ready? <==> b.deletionRequested && GardenerName in b.finalizers && associations == Ok([])
    ensures p.Undetermined? ==> p.fault == associations.error
    ensures p.Blocked? ==> p.shoots == associations.value
  {
    if !b.deletionRequested then Active
    else if GardenerName !in b.finalizers then Released
    else match associations
      case Err(f) => Undetermined(f)
      case Ok(shoots) => if |shoots| == 0 then Ready else Blocked(shoots)
  }

  /**
   * The active path: the binding's finalizer is ensured first; only then is
   * the Secret looked up (any failure, NotFound included, is returned) and
   * its finalizer ensured.
   */
  function EnsureFinalizers(s: State, b: SecretBinding, o: Oracle): (out: Outcome)
    ensures out.events == []
    ensures BindingWritesFirst(out.writes)
    ensures o.ensureBinding.Some? ==> out == Outcome(s, [], [], Some(ApiFailure(Failed(o.ensureBinding.value))))
    ensures UpdatesSecret(out.writes) ==>
      o.ensureBinding.None? && o.secretGet.None? && b.secretRef in s.secrets
    ensures o.ensureBinding.None? && (GardenerName in b.finalizers || b.meta in s.bindings) && LookupSecret(s, b.secretRef, o.secretGet).Err? ==>
      && out.err == Some(ApiFailure(LookupSecret(s, b.secretRef, o.secretGet).error))
      && out.state.secrets == s.secrets
      && !UpdatesSecret(out.writes)
    ensures WellKeyed(s) ==>
      (out.err.None? <==>
        && o.ensureBinding.None? && (GardenerName in b.finalizers || b.meta in s.bindings)
        && o.secretGet.None? && b.secretRef in s.secrets && o.ensureSecret.None?)
    ensures WellKeyed(s) && b.meta in s.bindings && s.bindings[b.meta] == b && out.err.None? ==> Protected(out.state, b)
    ensures b.meta in s.bindings && s.bindings[b.meta] == b && o.ensureBinding.None? ==>
      out.state.bindings == s.bindings[b.meta := WithGardenerFinalizer(b)]
    ensures out.err.Some? ==> out.state.secrets == s.secrets
    ensures WellKeyed(s) ==> OthersUnchanged(s, out.state, b)
    ensures b.meta in s.bindings && s.bindings[b.meta] == b && b.meta in out.state.bindings ==>
      BindingUpToToken(b, out.state.bindings[b.meta], GardenerName)
    ensures WellKeyed(s) && b.secretRef in s.secrets && b.secretRef in out.state.secrets ==>
      SecretUpToToken(s.secrets[b.secretRef], out.state.secrets[b.secretRef], ExternalGardenerName)
    // the requests sent when the Secret get fails: the binding's token if missing, nothing for the Secret
    ensures
      && WellKeyed(s) && b.meta in s.bindings && s.bindings[b.meta] == b && o.ensureBinding.None?
      && LookupSecret(s, b.secretRef, o.secretGet).Err?
      ==>
      out.writes == (if GardenerName in b.finalizers then [] else [BindingUpdate(WithGardenerFinalizer(b))])
    // the requests sent when nothing fails: the binding's token if missing, then the Secret's if missing
    ensures
      && WellKeyed(s) && b.meta in s.bindings && s.bindings[b.meta] == b && b.secretRef in s.secrets
      && o.ensureBinding.None? && o.secretGet.None?
      ==>
      out.writes ==
        (if GardenerName in b.finalizers then [] else [BindingUpdate(WithGardenerFinalizer(b))])
        + (if o.ensureSecret.Some? || ExternalGardenerName in s.secrets[b.secretRef].finalizers then []
           else [SecretUpdate(WithFinalizer(s.secrets[b.secretRef], ExternalGardenerName))])
    ensures WellKeyed(s) && out.err.None? ==>
      && b.secretRef in s.secrets
      && out.state.secrets == s.secrets[b.secretRef := WithFinalizer(s.secrets[b.secretRef], ExternalGardenerName)]
  {
    var first := EnsureBindingFinalizer(s, b, GardenerName, o.ensureBinding);
    if first.err.Some? then
      Outcome(first.state, first.writes, [], Some(ApiFailure(first.err.value)))
    else
      assert LookupSecret(first.state, b.secretRef, o.secretGet) == LookupSecret(s, b.secretRef, o.secretGet);
      var second := ProtectSecret(first.state, b, o);
      Outcome(second.state, first.writes + second.writes, [], second.err)
  }

  /**
   * The second half of the active path, on the store the binding step left:
   * the Secret is looked up (any failure, NotFound included, is returned) and
   * the external finalizer is ensured on it.
   */
  function ProtectSecret(t: State, b: SecretBinding, o: Oracle): (out: Outcome)
    ensures out.events == [] && out.state.bindings == t.bindings
    ensures LookupSecret(t, b.secretRef, o.secretGet).Err? ==>
      out == Outcome(t, [], [], Some(ApiFailure(LookupSecret(t, b.secretRef, o.secretGet).error)))
    ensures WellKeyed(t) && o.secretGet.None? && b.secretRef in t.secrets ==>
      out.writes ==
        (if o.ensureSecret.Some? || ExternalGardenerName in t.secrets[b.secretRef].finalizers then []
         else [SecretUpdate(WithFinalizer(t.secrets[b.secretRef], ExternalGardenerName))])
    ensures out.err.Some? ==> out.state == t && out.writes == []
    ensures WellKeyed(t) ==>
      (out.err.None? <==> o.secretGet.None? && b.secretRef in t.secrets && o.ensureSecret.None?)
    ensures WellKeyed(t) && out.err.None? ==>
      && b.secretRef in t.secrets
      && out.state.secrets == t.secrets[b.secretRef := WithFinalizer(t.secrets[b.secretRef], ExternalGardenerName)]
    ensures WellKeyed(t) ==> SameExcept(t.secrets, out.state.secrets, b.secretRef)
  {
    match LookupSecret(t, b.secretRef, o.secretGet)
    case Err(e) => Outcome(t, [], [], Some(ApiFailure(e)))
    case Ok(secret) =>
      var step := EnsureSecretFinalizer(t, secret, ExternalGardenerName, o.ensureSecret);
      Outcome(step.state, step.writes, [], if step.err.Some? then Some(ApiFailure(step.err.value)) else None)
  }

  /** Removing the binding's own finalizer, after `done` was sent; NotFound is tolerated. */
  function ReleaseBinding(s: State, done: seq<Write>, b: SecretBinding, o: Oracle): (out: Outcome)
    ensures out.events == []
    ensures out.writes == done + [BindingUpdate(WithoutGardenerFinalizer(b))]
    ensures out.state.secrets == s.secrets
    ensures UpdatesBinding(out.writes)
    ensures out.err.None? <==> IgnoreNotFound(o.bindingUpdate).None?
    ensures o.bindingUpdate.None? && b.meta in s.bindings ==>
      out.state.bindings == s.bindings[b.meta := WithoutGardenerFinalizer(b)]
    ensures o.bindingUpdate == Some(NotFound) ==> out.state.bindings == s.bindings - {b.meta}
    ensures IgnoreNotFound(o.bindingUpdate).Some? ==> out.state == s
    ensures SameExcept(s.bindings, out.state.bindings, b.meta)
  {
    var step := ApplyBindingUpdate(s, WithoutGardenerFinalizer(b), o.bindingUpdate);
    assert (done + step.writes)[|done|].BindingUpdate?;
    var err := IgnoreNotFound(step.err);
    Outcome(step.state, done + step.writes, [], if err.Some? then Some(ApiFailure(err.value)) else None)
  }

  /**
   * The deletion path once nothing references the binding: the Secret's
   * external finalizer is removed first (a missing Secret is tolerated), then
   * the binding's own. Any other failure on the Secret aborts before the
   * binding is touched.
   */
  function ReleaseFinalizers(s: State, b: SecretBinding, o: Oracle): (out: Outcome)
    ensures out.events == []
    ensures SecretWritesFirst(out.writes)
    ensures forall i :: 0 <= i < |out.writes| && out.writes[i].BindingUpdate? ==>
      out.writes[i].binding == WithoutGardenerFinalizer(b)
    ensures forall i :: 0 <= i < |out.writes| && out.writes[i].SecretUpdate? ==>
      b.secretRef in s.secrets && out.writes[i].secret == WithoutExternalFinalizer(s.secrets[b.secretRef])
    ensures o.secretGet.Some? ==> out == Outcome(s, [], [], Some(ApiFailure(Failed(o.secretGet.value))))
    ensures UpdatesBinding(out.writes) <==>
      o.secretGet.None? && (b.secretRef !in s.secrets || IgnoreNotFound(o.secretUpdate).None?)
    ensures !UpdatesBinding(out.writes) ==> out.state == s && out.err.Some?
    ensures out.err.None? <==>
      && o.secretGet.None? && (b.secretRef !in s.secrets || IgnoreNotFound(o.secretUpdate).None?)
      && IgnoreNotFound(o.bindingUpdate).None?
    ensures WellKeyed(s) && out.err.None? ==> Unprotected(out.state, b)
    // the new store: only the binding and its Secret change, and each loses only the controller's token
    ensures UpdatesBinding(out.writes) && o.bindingUpdate.None? && b.meta in s.bindings ==>
      out.state.bindings == s.bindings[b.meta := WithoutGardenerFinalizer(b)]
    ensures UpdatesBinding(out.writes) && o.bindingUpdate == Some(NotFound) ==>
      out.state.bindings == s.bindings - {b.meta}
    ensures IgnoreNotFound(o.bindingUpdate).Some? ==> out.state.bindings == s.bindings
    ensures o.secretGet.Some? || b.secretRef !in s.secrets || IgnoreNotFound(o.secretUpdate).Some? ==>
      out.state.secrets == s.secrets
    ensures WellKeyed(s) && o.secretGet.None? && b.secretRef in s.secrets && o.secretUpdate.None? ==>
      out.state.secrets == s.secrets[b.secretRef := WithoutExternalFinalizer(s.secrets[b.secretRef])]
    ensures WellKeyed(s) && o.secretGet.None? && b.secretRef in s.secrets && o.secretUpdate == Some(NotFound) ==>
      out.state.secrets == s.secrets - {b.secretRef}
    // the requests sent, exactly: the Secret update whenever its get succeeds, then the binding update unless that one failed
    ensures o.secretGet.None? && b.secretRef !in s.secrets ==>
      out.writes == [BindingUpdate(WithoutGardenerFinalizer(b))]
    ensures o.secretGet.None? && b.secretRef in s.secrets && IgnoreNotFound(o.secretUpdate).Some? ==>
      out.writes == [SecretUpdate(WithoutExternalFinalizer(s.secrets[b.secretRef]))]
    ensures o.secretGet.None? && b.secretRef in s.secrets && IgnoreNotFound(o.secretUpdate).None? ==>
      out.writes == [SecretUpdate(WithoutExternalFinalizer(s.secrets[b.secretRef])), BindingUpdate(WithoutGardenerFinalizer(b))]
    ensures WellKeyed(s) ==> OthersUnchanged(s, out.state, b)
    ensures b.meta in s.bindings && s.bindings[b.meta] == b && b.meta in out.state.bindings ==>
      BindingUpToToken(b, out.state.bindings[b.meta], GardenerName)
    ensures WellKeyed(s) && b.secretRef in s.secrets && b.secretRef in out.state.secrets ==>
      SecretUpToToken(s.secrets[b.secretRef], out.state.secrets[b.secretRef], ExternalGardenerName)
  {
    match LookupSecret(s, b.secretRef, o.secretGet)
    case Err(Failed(f)) => Outcome(s, [], [], Some(ApiFailure(Failed(f))))
    case Err(NotFound) => ReleaseBinding(s, [], b, o)
    case Ok(secret) =>
      var step := ApplySecretUpdate(s, WithoutExternalFinalizer(secret), o.secretUpdate);
      var err := IgnoreNotFound(step.err);
      if err.Some? then Outcome(step.state, step.writes, [], Some(ApiFailure(err.value)))
      else ReleaseBinding(step.state, step.writes, b, o)
  }

  /** One reconciliation of the SecretBinding `b` against the store `s`. */
  function Reconcile(s: State, b: SecretBinding, o: Oracle): (out: Outcome)
    ensures b.deletionRequested && GardenerName !in b.finalizers ==> out == Outcome(s, [], [], None)
    ensures b.deletionRequested && GardenerName in b.finalizers && o.associations.Err? ==>
      out == Outcome(s, [], [], Some(AssociationsFailed(o.associations.error)))
    ensures b.deletionRequested && GardenerName in b.finalizers && o.associations.Ok? && o.associations.value != [] ==>
      out == Outcome(s, [], [ReferencedEvent(b, o.associations.value)], Some(StillReferenced))
    ensures b.deletionRequested ==> SecretWritesFirst(out.writes)
    ensures !b.deletionRequested ==> BindingWritesFirst(out.writes)
    ensures WellKeyed(s) ==> WellKeyed(out.state)
    ensures WellKeyed(s) ==> OthersUnchanged(s, out.state, b)
    ensures b.meta in s.bindings && s.bindings[b.meta] == b && b.meta in out.state.bindings ==>
      BindingUpToToken(b, out.state.bindings[b.meta], GardenerName)
    ensures WellKeyed(s) && b.secretRef in s.secrets && b.secretRef in out.state.secrets ==>
      SecretUpToToken(s.secrets[b.secretRef], out.state.secrets[b.secretRef], ExternalGardenerName)
  {
    match Classify(b, o.associations)
    case Active => EnsureFinalizers(s, b, o)
    case Released => Outcome(s, [], [], None)
    case Undetermined(f) => Outcome(s, [], [], Some(AssociationsFailed(f)))
    case Blocked(shoots) => Outcome(s, [], [ReferencedEvent(b, shoots)], Some(StillReferenced))
    case Ready => ReleaseFinalizers(s, b, o)
  }

  /**
   * Reconciling the binding the store holds, right after a reconciliation of
   * it succeeded and with nothing changed in between, sends no update request,
   * whatever the collaborators answer the second time.
   */
  lemma ReconcileIdempotent(s: State, b: SecretBinding, o: Oracle, o2: Oracle)
    requires WellKeyed(s) && b.meta in s.bindings && s.bindings[b.meta] == b
    requires Reconcile(s, b, o).err.None?
    requires b.meta in Reconcile(s, b, o).state.bindings
    ensures Reconcile(Reconcile(s, b, o).state, Reconcile(s, b, o).state.bindings[b.meta], o2).writes == []
  {
  }

  /**
   * A deletion that nothing blocks and no call fails completes in one
   * reconciliation: neither token is left on the binding or on its Secret,
   * and the next reconciliation of the stored binding does nothing.
   */
  lemma ReleaseCompletes(s: State, b: SecretBinding, o: Oracle, o2: Oracle)
    requires WellKeyed(s) && b.meta in s.bindings
    requires b.deletionRequested && GardenerName in b.finalizers && o.associations == Ok([])
    requires o.secretGet.None? && o.secretUpdate.None? && o.bindingUpdate.None?
    ensures Reconcile(s, b, o).err.None?
    ensures b.secretRef in s.secrets ==>
      Reconcile(s, b, o).writes ==
        [SecretUpdate(WithoutExternalFinalizer(s.secrets[b.secretRef])), BindingUpdate(WithoutGardenerFinalizer(b))]
    ensures b.secretRef !in s.secrets ==> Reconcile(s, b, o).writes == [BindingUpdate(WithoutGardenerFinalizer(b))]
    ensures Unprotected(Reconcile(s, b, o).state, b)
    ensures b.meta in Reconcile(s, b, o).state.bindings
    ensures var s' := Reconcile(s, b, o).state;
            Reconcile(s', s'.bindings[b.meta], o2) == Outcome(s', [], [], None)
  {
  }

  /**
   * A live binding that carries neither token, whose Secret exists, and no
   * call fails: two update requests, the binding's first and then the
   * Secret's, after which both tokens are in place.
   */
  lemma ProtectSendsBothUpdates(s: State, b: SecretBinding, o: Oracle)
    requires WellKeyed(s) && b.meta in s.bindings && s.bindings[b.meta] == b && b.secretRef in s.secrets
    requires !b.deletionRequested && GardenerName !in b.finalizers
    requires ExternalGardenerName !in s.secrets[b.secretRef].finalizers
    requires o.ensureBinding.None? && o.secretGet.None? && o.ensureSecret.None?
    ensures Reconcile(s, b, o).err.None?
    ensures Reconcile(s, b, o).writes ==
      [BindingUpdate(WithGardenerFinalizer(b)),
       SecretUpdate(WithFinalizer(s.secrets[b.secretRef], ExternalGardenerName))]
    ensures Protected(Reconcile(s, b, o).state, b)
  {
  }

  /**
   * A live binding whose Secret does not exist: our token is still put on the
   * binding first, then the missing Secret is reported and nothing is sent
   * for it, so the next pass retries.
   */
  lemma DanglingSecretRefReported(s: State, b: SecretBinding, o: Oracle)
    requires WellKeyed(s) && b.meta in s.bindings && s.bindings[b.meta] == b && b.secretRef !in s.secrets
    requires !b.deletionRequested && GardenerName !in b.finalizers
    requires o.ensureBinding.None? && o.secretGet.None?
    ensures Reconcile(s, b, o).err == Some(ApiFailure(NotFound))
    ensures Reconcile(s, b, o).writes == [BindingUpdate(WithGardenerFinalizer(b))]
    ensures GardenerName in Reconcile(s, b, o).state.bindings[b.meta].finalizers
    ensures Reconcile(s, b, o).state.secrets == s.secrets
  {
  }

  /**
   * Both releasing updates answered NotFound (the objects were deleted since
   * they were read): the reconciliation still succeeds, the Secret update is
   * sent before the binding update, and both objects are gone.
   */
  lemma NotFoundOnUpdatesTolerated(s: State, b: SecretBinding, o: Oracle)
    requires WellKeyed(s) && b.meta in s.bindings && b.secretRef in s.secrets
    requires b.deletionRequested && GardenerName in b.finalizers && o.associations == Ok([])
    requires o.secretGet.None? && o.secretUpdate == Some(NotFound) && o.bindingUpdate == Some(NotFound)
    ensures Reconcile(s, b, o).err.None?
    ensures Reconcile(s, b, o).writes ==
      [SecretUpdate(WithoutExternalFinalizer(s.secrets[b.secretRef])), BindingUpdate(WithoutGardenerFinalizer(b))]
    ensures Reconcile(s, b, o).state == State(s.bindings - {b.meta}, s.secrets - {b.secretRef})
  {
  }

  /**
   * Safety: unless the Shoot lookup came back empty, no reconciliation takes
   * a controller token off any SecretBinding or Secret that carries one.
   */
  lemma TokensKeptUnlessUnreferenced(s: State, b: SecretBinding, o: Oracle)
    requires o.associations != Ok([])
    ensures var t := Reconcile(s, b, o).state;
      && (forall k :: k in s.bindings && GardenerName in s.bindings[k].finalizers ==>
            k in t.bindings && GardenerName in t.bindings[k].finalizers)
      && (forall k :: k in s.secrets && ExternalGardenerName in s.secrets[k].finalizers ==>
            k in t.secrets && ExternalGardenerName in t.secrets[k].finalizers)
  {
  }

  /**
   * The Secret is protected per binding, not per reference count: when two
   * bindings share a Secret, releasing one of them takes the external token
   * off the Secret although the other binding is live.
   */
  lemma SharedSecretLosesProtection()
    ensures var secret := ObjectMeta("garden-dev", "credentials");
      var live := SecretBinding(ObjectMeta("garden-dev", "live"), false, [GardenerName], secret);
      var gone := SecretBinding(ObjectMeta("garden-dev", "gone"), true, [GardenerName], secret);
      var s := State(map[live.meta := live, gone.meta := gone], map[secret := Secret(secret, [ExternalGardenerName])]);
      var o := Oracle(Ok([]), None, None, None, None, None);
      && Protected(s, live)
      && Reconcile(s, gone, o).err.None?
      && !Protected(Reconcile(s, gone, o).state, live)
      && Reconcile(s, gone, o).state.bindings[live.meta] == live
  {
  }
}
